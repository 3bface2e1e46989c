/**
 Choosing the chain update that makes a requested head canonical.
 */
module ChainSwitch {
  import opened Blocks
  import opened ChainStates

  /** Headers that become canonical, and for a reorg those that stop being canonical; both ascending. */
  datatype NewCanonicalChain =
    | Commit(added: seq<Header>)
    | Reorg(added: seq<Header>, removed: seq<Header>)
  {
    function Removed(): seq<Header> {
      if Commit? then [] else removed
    }
  }

  // ---------- parent-linked runs of headers ----------

  /** `s` lists the headers met walking from `from` down to, and not including, `to`. */
  ghost predicate Falling(s: seq<Header>, from: Hash, to: Hash)
  {
    && (|s| == 0 ==> from == to)
    && (|s| > 0 ==> HashOf(s[0]) == from && s[|s| - 1].parent == to)
    && (forall i :: 0 < i < |s| ==> s[i - 1].parent == HashOf(s[i]))
  }

  /** `s` lists the headers from just above `base` up to `tip`. */
  ghost predicate Rising(s: seq<Header>, base: Hash, tip: Hash)
  {
    && (|s| == 0 ==> base == tip)
    && (|s| > 0 ==> s[0].parent == base && HashOf(s[|s| - 1]) == tip)
    && (forall i :: 0 < i < |s| ==> s[i].parent == HashOf(s[i - 1]))
  }

  function Reversed(s: seq<Header>): seq<Header> {
    seq(|s|, i requires 0 <= i < |s| => s[|s| - 1 - i])
  }

  lemma ReversedRises(s: seq<Header>, from: Hash, to: Hash)
    requires Falling(s, from, to)
    ensures Rising(Reversed(s), to, from)
    ensures forall x :: x in Reversed(s) <==> x in s
  {
    var r := Reversed(s);
    forall i | 0 < i < |r|
      ensures r[i].parent == HashOf(r[i - 1])
    {
      var j := |s| - i;
      assert s[j - 1].parent == HashOf(s[j]);
    }
    forall x | x in s
      ensures x in r
    {
      var i :| 0 <= i < |s| && s[i] == x;
      assert r[|s| - 1 - i] == x;
    }
  }

  lemma {:induction false} FallingJoins(s: seq<Header>, t: seq<Header>, from: Hash, mid: Hash, to: Hash)
    requires Falling(s, from, mid) && Falling(t, mid, to)
    ensures Falling(s + t, from, to)
  {
  }

  lemma {:induction false} FallingDepth(s: seq<Header>, from: Hash, to: Hash)
    requires Falling(s, from, to)
    ensures AncestorOrSelf(to, from) && Depth(from) == Depth(to) + |s|
    decreases |s|
  {
    if |s| > 0 {
      assert Falling(s[1..], s[0].parent, to);
      FallingDepth(s[1..], s[0].parent, to);
    }
  }

  lemma {:induction false} FallingNumbered(s: seq<Header>, from: Hash, to: Hash)
    requires Falling(s, from, to) && Numbered(from) && |s| <= from.header.number
    ensures Numbered(to) && to.header.number == from.header.number - |s|
    decreases |s|
  {
    if |s| > 0 {
      assert Falling(s[1..], s[0].parent, to);
      FallingNumbered(s[1..], s[0].parent, to);
    }
  }

  // ---------- what an update has to be ----------

  /** Every block from `h` down to, and not including, `c` is in memory. */
  ghost predicate InMemory(blocks: map<Hash, Header>, h: Hash, c: Hash)
  {
    h == c || (h.HashOf? && h in blocks && InMemory(blocks, h.header.parent, c))
  }

  /** The target and the current head hang off a common block, both by paths held in memory. */
  ghost predicate Switchable(blocks: map<Hash, Header>, head: Hash, target: Hash)
  {
    && target in blocks && target.HashOf? && target.header.number > 0
    && exists c :: InMemory(blocks, target.header.parent, c) && InMemory(blocks, head, c)
  }

  /** `base` is the highest common ancestor of `a` and `b`. */
  ghost predicate Fork(base: Hash, a: Hash, b: Hash)
  {
    && AncestorOrSelf(base, a) && AncestorOrSelf(base, b)
    && forall c :: AncestorOrSelf(c, a) && AncestorOrSelf(c, b) ==> AncestorOrSelf(c, base)
  }

  predicate EndsAt(s: seq<Header>, tip: Hash)
  {
    |s| > 0 && HashOf(s[|s| - 1]) == tip
  }

  ghost predicate Held(blocks: map<Hash, Header>, s: seq<Header>)
  {
    forall x :: x in s ==> HashOf(x) in blocks
  }

  ghost predicate IsUpdate(blocks: map<Hash, Header>, head: Hash, target: Hash, update: Option<NewCanonicalChain>)
  {
    match update
    case None => !Switchable(blocks, head, target)
    case Some(Commit(added)) =>
      target in blocks && |added| > 0 && Rising(added, head, target) && Held(blocks, added)
    case Some(Reorg(added, removed)) =>
      && target in blocks && target.HashOf? && target.header.number > 0 && |added| > 0 && |removed| > 0
      && Held(blocks, added) && Held(blocks, removed)
      && var base := added[0].parent;
         Rising(added, base, target) && Rising(removed, base, head) && Fork(base, head, target.header.parent)
  }

  /** The block tree a node holds: numbered blocks, and a numbered head that need not be in memory. */
  ghost predicate Situated(v: ChainView, head: NumHash)
  {
    && Coherent(v)
    && (forall h :: h in v.blocks ==> Numbered(h))
    && Numbered(head.hash) && head.number == head.hash.header.number
  }

  // ---------- why the walks are right ----------

  lemma {:induction false} InMemoryIsAncestor(blocks: map<Hash, Header>, h: Hash, c: Hash)
    requires InMemory(blocks, h, c)
    ensures AncestorOrSelf(c, h)
  {
    if h != c {
      InMemoryIsAncestor(blocks, h.header.parent, c);
    }
  }

  lemma {:induction false} InMemoryThrough(blocks: map<Hash, Header>, h: Hash, m: Hash, c: Hash)
    requires InMemory(blocks, h, c) && AncestorOrSelf(m, h) && Depth(c) < Depth(m)
    ensures m in blocks
  {
    AncestorDepth(m, h);
    if m != h {
      InMemoryThrough(blocks, h.header.parent, m, c);
    }
  }

  /** A missing block deeper than `other` cuts `from` off from it. */
  lemma CutOff(blocks: map<Hash, Header>, from: Hash, m: Hash, other: Hash)
    requires AncestorOrSelf(m, from) && m !in blocks && Depth(other) < Depth(m)
    ensures forall c :: InMemory(blocks, from, c) ==> !InMemory(blocks, other, c)
  {
    forall c | InMemory(blocks, from, c) && InMemory(blocks, other, c)
      ensures false
    {
      InMemoryIsAncestor(blocks, other, c);
      AncestorDepth(c, other);
      InMemoryThrough(blocks, from, m, c);
    }
  }

  /** Distinct blocks of one depth, one of them missing, cut their descendants off from each other. */
  lemma CutOffLevel(blocks: map<Hash, Header>, from: Hash, m: Hash, from': Hash, m': Hash)
    requires AncestorOrSelf(m, from) && AncestorOrSelf(m', from') && Depth(m) == Depth(m') && m != m'
    requires m !in blocks
    ensures forall c :: InMemory(blocks, from, c) ==> !InMemory(blocks, from', c)
  {
    forall c | InMemory(blocks, from, c) && InMemory(blocks, from', c)
      ensures false
    {
      InMemoryIsAncestor(blocks, from, c);
      InMemoryIsAncestor(blocks, from', c);
      if Depth(c) < Depth(m) {
        InMemoryThrough(blocks, from, m, c);
      } else {
        AncestorsComparable(m, c, from);
        AncestorsComparable(m', c, from');
        AncestorsComparable(m, m', c);
        AncestorDepth(m, m');
      }
    }
  }

  /** Walking `a` down to a block no higher than `b` loses no common ancestor. */
  lemma WalkKeepsCommon(a: Hash, m: Hash, b: Hash)
    requires AncestorOrSelf(m, a) && Depth(b) <= Depth(m)
    ensures forall c :: AncestorOrSelf(c, a) && AncestorOrSelf(c, b) ==> AncestorOrSelf(c, m)
  {
    forall c | AncestorOrSelf(c, a) && AncestorOrSelf(c, b)
      ensures AncestorOrSelf(c, m)
    {
      AncestorDepth(c, b);
      AncestorsComparable(c, m, a);
    }
  }

  // ---------- the walks ----------

  /** Follows parents while the number is above `limit`; stops early at a block that is not in memory. */
  method WalkBack(chain: ChainState, start: NumHash, limit: nat)
      returns (found: bool, at: NumHash, headers: seq<Header>)
    requires chain.Valid()
    ensures Falling(headers, start.hash, at.hash) && Held(chain.blocks, headers)
    ensures at.number + |headers| == start.number
    ensures found ==> at.number == if start.number <= limit then start.number else limit
    ensures !found ==> at.number > limit && at.hash !in chain.blocks
  {
    at, headers := start, [];
    while at.number > limit
      invariant Falling(headers, start.hash, at.hash) && Held(chain.blocks, headers)
      invariant at.number + |headers| == start.number
      invariant headers != [] ==> at.number >= limit
      decreases at.number
    {
      if at.hash !in chain.blocks {
        return false, at, headers;
      }
      var header := chain.blocks[at.hash];
      FallingJoins(headers, [header], start.hash, at.hash, header.parent);
      at := NumHash(at.number - 1, header.parent);
      headers := headers + [header];
    }
    found := true;
  }

  /** Follows both chains in step until they meet. */
  method WalkToFork(chain: ChainState, old0: Hash, new0: Hash)
      returns (found: bool, fork: Hash, olds: seq<Header>, news: seq<Header>)
    requires chain.Valid()
    ensures found && old0 != new0 ==> old0 in chain.blocks && new0 in chain.blocks
    ensures found ==> Falling(olds, old0, fork) && Falling(news, new0, fork) && |olds| == |news|
    ensures found ==> Held(chain.blocks, olds) && Held(chain.blocks, news)
    ensures found && Depth(old0) == Depth(new0) ==> Fork(fork, old0, new0)
    ensures !found && Depth(old0) == Depth(new0) ==>
              forall c :: InMemory(chain.blocks, old0, c) ==> !InMemory(chain.blocks, new0, c)
  {
    var oldHash, newHash := old0, new0;
    olds, news, fork := [], [], old0;
    while oldHash != newHash
      invariant Falling(olds, old0, oldHash) && Falling(news, new0, newHash) && |olds| == |news|
      invariant Held(chain.blocks, olds) && Held(chain.blocks, news)
      invariant olds != [] ==> old0 in chain.blocks && new0 in chain.blocks
      invariant Depth(old0) == Depth(new0) ==>
                  forall c :: AncestorOrSelf(c, old0) && AncestorOrSelf(c, new0) ==>
                                AncestorOrSelf(c, oldHash) && AncestorOrSelf(c, newHash)
      decreases oldHash
    {
      FallingDepth(olds, old0, oldHash);
      FallingDepth(news, new0, newHash);
      if oldHash !in chain.blocks {
        if Depth(old0) == Depth(new0) { CutOffLevel(chain.blocks, old0, oldHash, new0, newHash); }
        return false, fork, olds, news;
      }
      var oldHeader := chain.blocks[oldHash];
      if newHash !in chain.blocks {
        if Depth(old0) == Depth(new0) { CutOffLevel(chain.blocks, new0, newHash, old0, oldHash); }
        return false, fork, olds, news;
      }
      var newHeader := chain.blocks[newHash];
      if Depth(old0) == Depth(new0) { StepKeepsCommon(oldHash, newHash); }
      FallingJoins(olds, [oldHeader], old0, oldHash, oldHeader.parent);
      FallingJoins(news, [newHeader], new0, newHash, newHeader.parent);
      olds, oldHash := olds + [oldHeader], oldHeader.parent;
      news, newHash := news + [newHeader], newHeader.parent;
    }
    FallingDepth(olds, old0, oldHash);
    FallingDepth(news, new0, newHash);
    return true, oldHash, olds, news;
  }

  lemma StepKeepsCommon(old1: Hash, new1: Hash)
    requires old1 != new1 && old1.HashOf? && new1.HashOf? && Depth(old1) == Depth(new1)
    ensures forall c :: AncestorOrSelf(c, old1) && AncestorOrSelf(c, new1) ==>
                          AncestorOrSelf(c, old1.header.parent) && AncestorOrSelf(c, new1.header.parent)
  {
    forall c | AncestorOrSelf(c, old1) && AncestorOrSelf(c, new1)
      ensures AncestorOrSelf(c, old1.header.parent) && AncestorOrSelf(c, new1.header.parent)
    {
      AncestorDepth(c, old1);
      AncestorDepth(c, new1);
    }
  }

  /** The chain update for a requested head, or nothing if memory does not connect the two. */
  method OnNewHead(chain: ChainState, head: NumHash, target: Hash) returns (update: Option<NewCanonicalChain>)
    requires chain.Valid()
    ensures update.Some? ==> target in chain.blocks && EndsAt(update.value.added, target)
    ensures Situated(chain.View(), head) ==> IsUpdate(chain.blocks, head.hash, target, update)
  {
    if target !in chain.blocks {
      return None;
    }
    var newHead := chain.blocks[target];
    var found, current, newChain := WalkBack(chain, newHead.ParentNumHash(), head.number);
    assert Situated(chain.View(), head) && newHead.number > 0 ==> Depth(current.hash) == current.number + 1 by {
      if Situated(chain.View(), head) && newHead.number > 0 {
        WalkedNumber(newHead.ParentNumHash(), current, newChain);
      }
    }
    assert Situated(chain.View(), head) ==> Depth(head.hash) == head.number + 1 by {
      if Situated(chain.View(), head) { DepthOfNumbered(head.hash); }
    }
    FallingDepth(newChain, newHead.parent, current.hash);
    if !found {
      if Situated(chain.View(), head) {
        CutOff(chain.blocks, newHead.parent, current.hash, head.hash);
      }
      return None;
    }
    if current.hash == head.hash {
      FallingJoins([newHead], newChain, target, newHead.parent, current.hash);
      ReversedRises([newHead] + newChain, target, current.hash);
      return Some(Commit(Reversed([newHead] + newChain)));
    }
    update := OnSideChain(chain, head, newHead, current, newChain);
  }

  lemma WalkedNumber(start: NumHash, at: NumHash, headers: seq<Header>)
    requires Numbered(start.hash) && start.number == start.hash.header.number
    requires Falling(headers, start.hash, at.hash) && at.number + |headers| == start.number
    ensures Numbered(at.hash) && at.hash.header.number == at.number && Depth(at.hash) == at.number + 1
  {
    FallingNumbered(headers, start.hash, at.hash);
    DepthOfNumbered(at.hash);
  }

  /** The rest of the search once the target is known not to extend the current head. */
  method OnSideChain(chain: ChainState, head: NumHash, newHead: Header, current: NumHash, newChain: seq<Header>)
      returns (update: Option<NewCanonicalChain>)
    requires chain.Valid() && HashOf(newHead) in chain.blocks
    requires current.hash != head.hash && current.number <= head.number
    requires newChain != [] ==> current.number == head.number
    requires Falling(newChain, newHead.parent, current.hash) && Held(chain.blocks, newChain)
    requires Situated(chain.View(), head) && newHead.number > 0 ==> Depth(current.hash) == current.number + 1
    requires Situated(chain.View(), head) && newHead.number == 0 ==> current.hash == ZERO
    ensures update.Some? ==> EndsAt(update.value.added, HashOf(newHead))
    ensures Situated(chain.View(), head) ==> IsUpdate(chain.blocks, head.hash, HashOf(newHead), update)
  {
    ghost var situated := Situated(chain.View(), head);
    var found, oldAt, oldChain := WalkBack(chain, head, current.number);
    FallingDepth(newChain, newHead.parent, current.hash);
    FallingDepth(oldChain, head.hash, oldAt.hash);
    if situated { WalkedNumber(head, oldAt, oldChain); }
    if !found {
      if situated && newHead.number > 0 {
        CutOff(chain.blocks, head.hash, oldAt.hash, newHead.parent);
      }
      return None;
    }
    var fork, olds, news;
    found, fork, olds, news := WalkToFork(chain, oldAt.hash, current.hash);
    if !found {
      if situated && newHead.number > 0 {
        assert newChain == [] || oldChain == [];
        StillCutOff(chain.blocks, oldChain, head.hash, oldAt.hash, newChain, newHead.parent, current.hash);
      }
      return None;
    }
    FallingJoins([newHead], newChain, HashOf(newHead), newHead.parent, current.hash);
    FallingJoins([newHead] + newChain, news, HashOf(newHead), current.hash, fork);
    FallingJoins(oldChain, olds, head.hash, oldAt.hash, fork);
    ReversedRises([newHead] + newChain + news, HashOf(newHead), fork);
    ReversedRises(oldChain + olds, head.hash, fork);
    if situated {
      assert newHead.number > 0;
      ForkOfDescendants(fork, head.hash, oldAt.hash, newHead.parent, current.hash);
    }
    return Some(Reorg(Reversed([newHead] + newChain + news), Reversed(oldChain + olds)));
  }

  /** The two starting points are cut off from each other if the blocks walked down to are. */
  lemma StillCutOff(blocks: map<Hash, Header>, oldChain: seq<Header>, head: Hash, oldAt: Hash,
                    newChain: seq<Header>, parent: Hash, current: Hash)
    requires Falling(oldChain, head, oldAt) && Falling(newChain, parent, current)
    requires newChain == [] || oldChain == []
    requires Depth(oldAt) == Depth(current)
    requires forall c :: InMemory(blocks, oldAt, c) ==> !InMemory(blocks, current, c)
    ensures forall c :: InMemory(blocks, head, c) ==> !InMemory(blocks, parent, c)
  {
    FallingDepth(oldChain, head, oldAt);
    FallingDepth(newChain, parent, current);
    forall c | InMemory(blocks, head, c) && InMemory(blocks, parent, c)
      ensures false
    {
      InMemoryIsAncestor(blocks, head, c);
      InMemoryIsAncestor(blocks, parent, c);
      AncestorDepth(c, head);
      AncestorDepth(c, parent);
      InMemorySuffix(blocks, head, oldAt, c);
      InMemorySuffix(blocks, parent, current, c);
    }
  }

  lemma {:induction false} InMemorySuffix(blocks: map<Hash, Header>, h: Hash, m: Hash, c: Hash)
    requires InMemory(blocks, h, c) && AncestorOrSelf(m, h) && Depth(c) <= Depth(m)
    ensures InMemory(blocks, m, c)
  {
    if m != h {
      AncestorDepth(m, h.header.parent);
      InMemorySuffix(blocks, h.header.parent, m, c);
    }
  }

  lemma ForkOfDescendants(fork: Hash, a: Hash, a': Hash, b: Hash, b': Hash)
    requires Fork(fork, a', b') && AncestorOrSelf(a', a) && AncestorOrSelf(b', b) && Depth(a') == Depth(b')
    requires a == a' || b == b'
    ensures Fork(fork, a, b)
  {
    AncestorTransitive(fork, a', a);
    AncestorTransitive(fork, b', b);
    if a == a' {
      WalkKeepsCommon(b, b', a);
    } else {
      WalkKeepsCommon(a, a', b);
    }
  }

  // ---------- what every update looks like ----------

  /** A rising run holds exactly the ancestors of its tip that lie above its base. */
  lemma {:induction false} RisingMembers(s: seq<Header>, base: Hash, tip: Hash)
    requires Rising(s, base, tip)
    ensures AncestorOrSelf(base, tip) && Depth(tip) == Depth(base) + |s|
    ensures forall x :: x in s <==> AncestorOrSelf(HashOf(x), tip) && Depth(HashOf(x)) > Depth(base)
    decreases |s|
  {
    if |s| > 0 {
      var rest, last := s[..|s| - 1], s[|s| - 1];
      assert s == rest + [last] && Rising(rest, base, last.parent);
      RisingMembers(rest, base, last.parent);
      forall x: Header
        ensures x in s <==> AncestorOrSelf(HashOf(x), tip) && Depth(HashOf(x)) > Depth(base)
      {
        assert x in s <==> x in rest || x == last;
        assert AncestorOrSelf(HashOf(x), tip) <==> HashOf(x) == tip || AncestorOrSelf(HashOf(x), last.parent);
      }
    } else {
      forall x: Header | AncestorOrSelf(HashOf(x), tip)
        ensures Depth(HashOf(x)) <= Depth(base)
      {
        AncestorDepth(HashOf(x), tip);
      }
    }
  }

  /**
   An update is a commit exactly when the current head is a proper ancestor of the target. A
   reorg's two sides share at most the target itself, and they do exactly when the target
   already is on the current chain.
   */
  lemma UpdateShape(blocks: map<Hash, Header>, head: Hash, target: Hash, update: NewCanonicalChain)
    requires IsUpdate(blocks, head, target, Some(update)) && target.HashOf?
    ensures update.Commit? <==> AncestorOrSelf(head, target.header.parent)
    ensures forall x :: x in update.added && x in update.Removed() ==> HashOf(x) == target
    ensures target.header in update.Removed() <==> update.Reorg? && AncestorOrSelf(target, head)
  {
    var base := update.added[0].parent;
    RisingMembers(update.added, base, target);
    if update.Reorg? {
      RisingMembers(update.removed, base, head);
      AncestorDepth(base, target.header.parent);
      assert AncestorOrSelf(base, head);
      if AncestorOrSelf(head, target.header.parent) {
        assert AncestorOrSelf(head, head);
        AncestorDepth(head, base);
        AncestorDepth(base, head);
      }
      forall x | x in update.added && x in update.removed
        ensures HashOf(x) == target
      {
        if HashOf(x) != target {
          AncestorDepth(HashOf(x), base);
        }
      }
    }
  }
}
