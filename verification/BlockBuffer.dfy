/**
 The buffer of pending blocks: blocks waiting for a parent, a witness or bytecodes, indexed by
 hash, parent, number and recency.
 */
module BlockBuffers {
  import opened Blocks

  datatype BufferView = BufferView(
    blocks: map<Hash, Header>,
    witnesses: map<Hash, Witness>,
    missing: map<Hash, set<Code>>,
    children: map<Hash, set<Hash>>,
    earliest: map<nat, set<Hash>>,
    lru: seq<Hash>)

  // ---------- coherence ----------

  ghost predicate BlocksOk(blocks: map<Hash, Header>)
  {
    forall h :: h in blocks ==> h.HashOf? && blocks[h] == h.header
  }

  /** The recency list holds exactly the buffered hashes, once each, and respects the limit. */
  ghost predicate LruOk(blocks: map<Hash, Header>, lru: seq<Hash>, limit: nat)
  {
    && (forall h :: h in lru <==> h in blocks)
    && Distinct(lru)
    && |lru| <= limit
  }

  ghost predicate Distinct<T>(s: seq<T>)
  {
    forall i, j :: 0 <= i < j < |s| ==> s[i] != s[j]
  }

  /** The number index holds exactly the buffered blocks, and no empty bucket. */
  ghost predicate EarliestOk(blocks: map<Hash, Header>, earliest: map<nat, set<Hash>>)
  {
    && (forall n, h :: n in earliest && h in earliest[n] ==> h in blocks && blocks[h].number == n)
    && (forall h :: h in blocks ==> blocks[h].number in earliest && h in earliest[blocks[h].number])
    && (forall n :: n in earliest ==> earliest[n] != {})
  }

  /** Every link leads from a parent to a child of that parent. */
  ghost predicate LinksOk(children: map<Hash, set<Hash>>)
  {
    forall p, c :: p in children && c in children[p] ==> c.HashOf? && c.header.parent == p
  }

  /** Every parent-index entry names a buffered block with that parent, and there is no empty bucket. */
  ghost predicate ChildrenOk(blocks: map<Hash, Header>, children: map<Hash, set<Hash>>)
  {
    && LinksOk(children)
    && (forall p, c :: p in children && c in children[p] ==> c in blocks)
    && (forall p :: p in children ==> children[p] != {})
  }

  /** Missing sets are never empty and belong only to buffered witnesses. */
  ghost predicate MissingOk(witnesses: map<Hash, Witness>, missing: map<Hash, set<Code>>)
  {
    && missing.Keys <= witnesses.Keys
    && forall h :: h in missing ==> missing[h] != {}
  }

  ghost predicate Coherent(v: BufferView, limit: nat)
  {
    && BlocksOk(v.blocks) && LruOk(v.blocks, v.lru, limit)
    && EarliestOk(v.blocks, v.earliest) && ChildrenOk(v.blocks, v.children)
    && MissingOk(v.witnesses, v.missing)
  }

  /** The parent index also lists every buffered block. */
  ghost predicate AllListed(v: BufferView)
  {
    forall h :: h in v.blocks ==> Link(v.children, h)
  }

  /** The block's witness is there and none of its bytecodes is missing. */
  predicate Ready(v: BufferView, h: Hash)
  {
    h in v.witnesses && (h in v.missing ==> v.missing[h] == {})
  }

  // ---------- index updates ----------

  function Added<K>(m: map<K, set<Hash>>, k: K, h: Hash): map<K, set<Hash>>
  {
    m[k := (if k in m then m[k] else {}) + {h}]
  }

  function Dropped<K>(m: map<K, set<Hash>>, k: K, h: Hash): map<K, set<Hash>>
  {
    if k !in m then m
    else if m[k] - {h} == {} then m - {k}
    else m[k := m[k] - {h}]
  }

  function Kept(s: seq<Hash>, keep: set<Hash>): seq<Hash>
  {
    if s == [] then []
    else if s[0] in keep then [s[0]] + Kept(s[1..], keep)
    else Kept(s[1..], keep)
  }

  function Without(s: seq<Hash>, h: Hash): seq<Hash>
  {
    Kept(s, (set x | x in s) - {h})
  }

  /** All traces of a buffered block are gone, its witness and missing set included. */
  function Taken(v: BufferView, h: Hash): BufferView
  {
    if h !in v.blocks then v
    else
      var block := v.blocks[h];
      BufferView(v.blocks - {h}, v.witnesses - {h}, v.missing - {h},
                 Dropped(v.children, block.parent, h), Dropped(v.earliest, block.number, h), Without(v.lru, h))
  }

  lemma {:induction false} KeptSpec(s: seq<Hash>, keep: set<Hash>)
    ensures |Kept(s, keep)| <= |s| && forall h :: h in Kept(s, keep) <==> h in s && h in keep
    ensures forall h :: h in s && h !in keep ==> |Kept(s, keep)| < |s|
    ensures Distinct(s) ==> Distinct(Kept(s, keep))
  {
    if s != [] {
      KeptSpec(s[1..], keep);
      assert s == [s[0]] + s[1..];
      if Distinct(s) {
        assert Distinct(s[1..]);
        assert s[0] !in s[1..];
      }
    }
  }

  lemma {:induction false} KeptTwice(s: seq<Hash>, a: set<Hash>, b: set<Hash>)
    requires b <= a
    ensures Kept(Kept(s, a), b) == Kept(s, b)
  {
    if s != [] {
      KeptTwice(s[1..], a, b);
      if s[0] in a {
        assert Kept(s, a)[1..] == Kept(s[1..], a);
      }
    }
  }

  lemma {:induction false} KeptAgree(s: seq<Hash>, a: set<Hash>, b: set<Hash>)
    requires forall x :: x in s ==> (x in a <==> x in b)
    ensures Kept(s, a) == Kept(s, b)
  {
    if s != [] {
      assert s[0] in s && forall x :: x in s[1..] ==> x in s;
      KeptAgree(s[1..], a, b);
    }
  }

  lemma EarliestDropped(blocks: map<Hash, Header>, earliest: map<nat, set<Hash>>, h: Hash)
    requires EarliestOk(blocks, earliest) && h in blocks
    ensures EarliestOk(blocks - {h}, Dropped(earliest, blocks[h].number, h))
  {
    var n0, after := blocks[h].number, Dropped(earliest, blocks[h].number, h);
    forall g | g in blocks - {h}
      ensures blocks[g].number in after && g in after[blocks[g].number]
    {
      assert g in earliest[blocks[g].number];
      if blocks[g].number == n0 { assert g in earliest[n0] - {h}; }
    }
    forall n, g | n in after && g in after[n]
      ensures g in blocks - {h} && blocks[g].number == n
    {
      assert n in earliest && g in earliest[n];
    }
  }

  lemma ChildrenDropped(blocks: map<Hash, Header>, children: map<Hash, set<Hash>>, h: Hash)
    requires BlocksOk(blocks) && ChildrenOk(blocks, children) && h in blocks
    ensures ChildrenOk(blocks - {h}, Dropped(children, blocks[h].parent, h))
  {
    var after := Dropped(children, blocks[h].parent, h);
    forall p, c: Hash | p in after && c in after[p]
      ensures c.HashOf? && c.header.parent == p && c in blocks - {h}
    {
      assert p in children && c in children[p];
    }
  }

  lemma DroppedTwice<K>(m: map<K, set<Hash>>, k: K, h: Hash)
    ensures Dropped(Dropped(m, k, h), k, h) == Dropped(m, k, h)
  {
    if k in m {
      assert m[k] - {h} - {h} == m[k] - {h};
    }
  }

  lemma TakenCoherent(v: BufferView, h: Hash, limit: nat)
    requires Coherent(v, limit)
    ensures Coherent(Taken(v, h), limit)
  {
    if h in v.blocks {
      EarliestDropped(v.blocks, v.earliest, h);
      ChildrenDropped(v.blocks, v.children, h);
      KeptSpec(v.lru, (set x | x in v.lru) - {h});
    }
  }

  /** The block is gone from every index, with its witness and missing set, and nothing else is. */
  ghost predicate WithoutTraces(v: BufferView, h: Hash, w: BufferView)
  {
    && w.blocks == v.blocks - {h} && w.witnesses == v.witnesses - {h} && w.missing == v.missing - {h}
    && (forall c :: Link(w.children, c) <==> Link(v.children, c) && c != h)
    && (forall x :: x in w.lru <==> x in v.lru && x != h)
  }

  lemma TakenLeavesNoTrace(v: BufferView, h: Hash)
    requires h in v.blocks && h.HashOf? && v.blocks[h] == h.header
    ensures WithoutTraces(v, h, Taken(v, h))
  {
    KeptSpec(v.lru, (set x | x in v.lru) - {h});
    forall c
      ensures Link(Taken(v, h).children, c) <==> Link(v.children, c) && c != h
    {
      if Link(v.children, c) && c != h {
        assert c in v.children[c.header.parent] - {h};
      }
    }
  }

  // ---------- inserting ----------

  /** The block indexed, before the limit is enforced. */
  function Indexed(v: BufferView, block: Header): BufferView
  {
    v.(children := Added(v.children, block.parent, HashOf(block)),
       earliest := Added(v.earliest, block.number, HashOf(block)),
       blocks := v.blocks[HashOf(block) := block])
  }

  /** A new hash pushes out the least recently used one at the limit; every inserted hash becomes the most recent. */
  function Inserted(v: BufferView, block: Header, limit: nat): BufferView
  {
    var hash := HashOf(block);
    var w := Indexed(v, block);
    if hash in v.lru then w.(lru := Without(v.lru, hash) + [hash])
    else if limit <= |v.lru| && v.lru != [] then Taken(w.(lru := v.lru[1..] + [hash]), v.lru[0])
    else w.(lru := v.lru + [hash])
  }

  lemma EarliestAdded(blocks: map<Hash, Header>, earliest: map<nat, set<Hash>>, block: Header)
    requires BlocksOk(blocks) && EarliestOk(blocks, earliest)
    ensures EarliestOk(blocks[HashOf(block) := block], Added(earliest, block.number, HashOf(block)))
  {
    var after := Added(earliest, block.number, HashOf(block));
    forall n, g: Hash | n in after && g in after[n]
      ensures g in blocks[HashOf(block) := block] && blocks[HashOf(block) := block][g].number == n
    {
      if g != HashOf(block) || n != block.number { assert n in earliest && g in earliest[n]; }
    }
    forall g | g in blocks
      ensures blocks[g].number in after && g in after[blocks[g].number]
    {
      assert g in earliest[blocks[g].number];
    }
  }

  lemma ChildrenAdded(blocks: map<Hash, Header>, children: map<Hash, set<Hash>>, block: Header)
    requires BlocksOk(blocks) && ChildrenOk(blocks, children)
    ensures ChildrenOk(blocks[HashOf(block) := block], Added(children, block.parent, HashOf(block)))
  {
    var after := Added(children, block.parent, HashOf(block));
    forall p, c: Hash | p in after && c in after[p]
      ensures c.HashOf? && c.header.parent == p && c in blocks[HashOf(block) := block]
    {
      if c != HashOf(block) || p != block.parent { assert p in children && c in children[p]; }
    }
  }

  ghost function Members(s: seq<Hash>): set<Hash>
  {
    set h | h in s
  }

  lemma NextMember(s: seq<Hash>, i: nat)
    requires i < |s| && Distinct(s)
    ensures Members(s[..i + 1]) == Members(s[..i]) + {s[i]} && s[i] !in Members(s[..i]) && s[i] in s
  {
    PrefixStep(s, i);
  }

  lemma PrefixStep(s: seq<Hash>, i: nat)
    requires i < |s|
    ensures forall h :: h in s[..i + 1] <==> h in s[..i] || h == s[i]
    ensures Distinct(s) ==> s[i] !in s[..i]
  {
    assert s[..i + 1] == s[..i] + [s[i]];
  }

  lemma DistinctAppend<T>(s: seq<T>, x: T)
    requires Distinct(s) && x !in s
    ensures Distinct(s + [x]) && forall h :: h in s + [x] <==> h in s || h == x
  {
  }

  lemma LruTouched(blocks: map<Hash, Header>, lru: seq<Hash>, limit: nat, block: Header)
    requires LruOk(blocks, lru, limit)
    requires HashOf(block) in lru || |lru| < limit
    ensures LruOk(blocks[HashOf(block) := block], Without(lru, HashOf(block)) + [HashOf(block)], limit)
  {
    var hash, keep := HashOf(block), (set x | x in lru) - {HashOf(block)};
    KeptSpec(lru, keep);
    DistinctAppend(Kept(lru, keep), hash);
    assert |Kept(lru, keep)| < limit by {
      if hash in lru { assert hash in lru && hash !in keep; }
    }
  }

  lemma {:induction false} KeptAll(s: seq<Hash>, keep: set<Hash>)
    requires forall h :: h in s ==> h in keep
    ensures Kept(s, keep) == s
  {
    if s != [] {
      assert s[0] in s;
      assert forall h :: h in s[1..] ==> h in s;
      KeptAll(s[1..], keep);
    }
  }

  lemma LruGrows(blocks: map<Hash, Header>, lru: seq<Hash>, limit: nat, block: Header)
    requires LruOk(blocks, lru, limit) && HashOf(block) !in lru && |lru| < limit
    ensures LruOk(blocks[HashOf(block) := block], lru + [HashOf(block)], limit)
  {
    LruTouched(blocks, lru, limit, block);
    KeptAll(lru, (set x | x in lru) - {HashOf(block)});
  }

  lemma IndexedOk(v: BufferView, block: Header, limit: nat)
    requires Coherent(v, limit)
    ensures var w := Indexed(v, block);
            && BlocksOk(w.blocks) && EarliestOk(w.blocks, w.earliest) && ChildrenOk(w.blocks, w.children)
            && MissingOk(w.witnesses, w.missing)
  {
    EarliestAdded(v.blocks, v.earliest, block);
    ChildrenAdded(v.blocks, v.children, block);
  }

  lemma InsertedCoherent(v: BufferView, block: Header, limit: nat)
    requires Coherent(v, limit) && limit >= 1
    ensures Coherent(Inserted(v, block, limit), limit)
    ensures HashOf(block) in Inserted(v, block, limit).blocks
  {
    var hash, w := HashOf(block), Indexed(v, block);
    IndexedOk(v, block, limit);
    if hash in v.lru {
      LruTouched(v.blocks, v.lru, limit, block);
    } else if limit <= |v.lru| && v.lru != [] {
      InsertedEvicts(v, block, limit);
    } else {
      LruGrows(v.blocks, v.lru, limit, block);
    }
  }

  /** The overflow case, where the number of entries exceeds the limit until the oldest goes. */
  lemma InsertedEvicts(v: BufferView, block: Header, limit: nat)
    requires Coherent(v, limit) && HashOf(block) !in v.lru && v.lru != []
    requires EarliestOk(Indexed(v, block).blocks, Indexed(v, block).earliest)
    requires ChildrenOk(Indexed(v, block).blocks, Indexed(v, block).children)
    ensures Coherent(Taken(Indexed(v, block).(lru := v.lru[1..] + [HashOf(block)]), v.lru[0]), limit)
    ensures HashOf(block) != v.lru[0]
  {
    var oldest, w := v.lru[0], Indexed(v, block).(lru := v.lru[1..] + [HashOf(block)]);
    assert oldest in v.lru;
    EarliestDropped(w.blocks, w.earliest, oldest);
    ChildrenDropped(w.blocks, w.children, oldest);
    LruOverflows(v.blocks, v.lru, limit, block);
  }

  lemma LruOverflows(blocks: map<Hash, Header>, lru: seq<Hash>, limit: nat, block: Header)
    requires LruOk(blocks, lru, limit) && HashOf(block) !in lru && lru != []
    ensures LruOk(blocks[HashOf(block) := block] - {lru[0]}, Without(lru[1..] + [HashOf(block)], lru[0]), limit)
  {
    var oldest, rest := lru[0], lru[1..] + [HashOf(block)];
    assert lru == [oldest] + lru[1..];
    assert oldest !in lru[1..];
    assert Distinct(rest);
    KeptSpec(rest, (set x | x in rest) - {oldest});
  }

  /** The block that has to go for a new one: the least recently used, if the limit is reached. */
  ghost predicate HasToGo(v: BufferView, block: Header, limit: nat, h: Hash)
  {
    HashOf(block) !in v.blocks && limit > 0 && |v.lru| == limit && h == v.lru[0]
  }

  /** The block is in, as the most recently used and listed under its parent; only the one that has to go is out. */
  ghost predicate OldestMadeRoom(v: BufferView, block: Header, limit: nat, w: BufferView)
    requires limit >= 1
  {
    var hash := HashOf(block);
    && (forall h :: h in w.blocks <==> h == hash || (h in v.blocks && !HasToGo(v, block, limit, h)))
    && (forall h :: h in w.blocks ==> w.blocks[h] == if h == hash then block else v.blocks[h])
    && (forall h :: h in w.witnesses <==> h in v.witnesses && !HasToGo(v, block, limit, h))
    && (forall h :: h in w.missing <==> h in v.missing && !HasToGo(v, block, limit, h))
    && (forall h :: h in w.witnesses ==> w.witnesses[h] == v.witnesses[h])
    && (forall h :: h in w.missing ==> w.missing[h] == v.missing[h])
    && |w.lru| > 0 && w.lru[|w.lru| - 1] == hash && Link(w.children, hash)
  }

  lemma InsertedMakesRoom(v: BufferView, block: Header, limit: nat)
    requires Coherent(v, limit) && limit >= 1
    ensures OldestMadeRoom(v, block, limit, Inserted(v, block, limit))
  {
    var hash := HashOf(block);
    if hash in v.lru {
      RoomIsThere(v, block, limit, Without(v.lru, hash));
    } else if limit <= |v.lru| {
      OverflowMakesRoom(v, block, limit);
    } else {
      RoomIsThere(v, block, limit, v.lru);
    }
  }

  lemma RoomIsThere(v: BufferView, block: Header, limit: nat, rest: seq<Hash>)
    requires limit >= 1 && (HashOf(block) in v.blocks || |v.lru| < limit)
    ensures OldestMadeRoom(v, block, limit, Indexed(v, block).(lru := rest + [HashOf(block)]))
  {
    LinkedAndLast(v, block, Indexed(v, block).(lru := rest + [HashOf(block)]), rest);
  }

  lemma LinkedAndLast(v: BufferView, block: Header, w: BufferView, rest: seq<Hash>)
    requires w == Indexed(v, block).(lru := rest + [HashOf(block)])
    ensures Link(w.children, HashOf(block)) && |w.lru| > 0 && w.lru[|w.lru| - 1] == HashOf(block)
  {
  }

  lemma OverflowMakesRoom(v: BufferView, block: Header, limit: nat)
    requires Coherent(v, limit) && limit >= 1 && HashOf(block) !in v.lru && limit <= |v.lru|
    ensures OldestMadeRoom(v, block, limit, Inserted(v, block, limit))
  {
    var hash, oldest := HashOf(block), v.lru[0];
    var full := Indexed(v, block).(lru := v.lru[1..] + [hash]);
    assert oldest in v.lru && oldest in v.blocks && oldest != hash;
    LinkedAndLast(v, block, full, v.lru[1..]);
    TakenLeavesNoTrace(full, oldest);
    LastStays(v.lru[1..], hash, oldest);
    assert Inserted(v, block, limit) == Taken(full, oldest);
  }

  lemma LastStays(rest: seq<Hash>, last: Hash, gone: Hash)
    requires last != gone
    ensures var s := Without(rest + [last], gone);
            |s| > 0 && s[|s| - 1] == last
  {
    KeptAppend(rest, last, (set x | x in rest + [last]) - {gone});
  }

  // ---------- reachability by parent-index links ----------

  ghost predicate Link(children: map<Hash, set<Hash>>, h: Hash)
  {
    h.HashOf? && h.header.parent in children && h in children[h.header.parent]
  }

  /** `h` is one of the roots or hangs below one by parent-index links. */
  ghost predicate BelowAny(children: map<Hash, set<Hash>>, roots: set<Hash>, h: Hash)
  {
    h in roots || (Link(children, h) && BelowAny(children, roots, h.header.parent))
  }

  /** State of a worklist traversal: `seen` hashes have been pushed, `done` ones popped. */
  ghost predicate Sweep(links: map<Hash, set<Hash>>, roots: set<Hash>, seen: set<Hash>, done: set<Hash>,
                        children: map<Hash, set<Hash>>, stack: seq<Hash>)
  {
    && roots <= seen && done <= seen
    && (forall x :: x in stack ==> x in seen)
    && (forall x :: x in seen ==> x in done || x in stack)
    && (forall x :: x in seen ==> BelowAny(links, roots, x))
    && (forall x :: x in seen ==> x in roots || (x.HashOf? && x.header.parent in done))
    && (forall c :: Link(links, c) && c.header.parent in done ==> c in seen)
    && (forall k :: k in children <==> k in links && k !in done)
    && (forall k :: k in children ==> children[k] == links[k])
  }

  lemma SweepStart(links: map<Hash, set<Hash>>, stack: seq<Hash>, roots: set<Hash>)
    requires forall x :: x in roots <==> x in stack
    ensures Sweep(links, roots, roots, {}, links, stack)
  {
  }

  lemma SweepPop(links: map<Hash, set<Hash>>, roots: set<Hash>, seen: set<Hash>, done: set<Hash>,
                 children: map<Hash, set<Hash>>, stack: seq<Hash>, pushed: seq<Hash>)
    requires LinksOk(links) && Sweep(links, roots, seen, done, children, stack) && stack != []
    requires var p := stack[|stack| - 1];
             forall c :: c in pushed <==> p in children && c in children[p]
    ensures var p := stack[|stack| - 1];
            var found := set c | c in pushed;
            Sweep(links, roots, seen + found, done + {p}, children - {p}, stack[..|stack| - 1] + pushed)
  {
    var p, rest := stack[|stack| - 1], stack[..|stack| - 1];
    assert stack == rest + [p] && p in stack;
    var found := set c | c in pushed;
    forall c | c in found
      ensures c.HashOf? && c.header.parent == p && BelowAny(links, roots, c)
    {
      assert c in links[p];
    }
    forall c | Link(links, c) && c.header.parent in done + {p}
      ensures c in seen + found
    {
      if c.header.parent !in done { assert p in children && c in children[p]; }
    }
    assert forall x :: x in rest + pushed <==> x in rest || x in pushed;
  }

  lemma {:induction false} ClosedHoldsBelow(links: map<Hash, set<Hash>>, roots: set<Hash>, seen: set<Hash>, h: Hash)
    requires roots <= seen && forall c :: Link(links, c) && c.header.parent in seen ==> c in seen
    requires BelowAny(links, roots, h)
    ensures h in seen
  {
    if h !in roots {
      ClosedHoldsBelow(links, roots, seen, h.header.parent);
    }
  }

  /** An emptied worklist has visited exactly what hangs below the roots. */
  lemma SweepEnd(links: map<Hash, set<Hash>>, roots: set<Hash>, seen: set<Hash>, done: set<Hash>, children: map<Hash,
                 set<Hash>>)
    requires Sweep(links, roots, seen, done, children, [])
    ensures forall h :: h in seen <==> BelowAny(links, roots, h)
    ensures forall k :: k in children <==> k in links && !BelowAny(links, roots, k)
    ensures forall k :: k in children ==> children[k] == links[k]
  {
    forall h | BelowAny(links, roots, h)
      ensures h in seen
    {
      ClosedHoldsBelow(links, roots, seen, h);
    }
    assert seen == done;
  }

  lemma {:induction false} BelowDepth(links: map<Hash, set<Hash>>, root: Hash, h: Hash)
    requires BelowAny(links, {root}, h)
    ensures Depth(root) <= Depth(h)
  {
    if h != root {
      BelowDepth(links, root, h.header.parent);
    }
  }

  /** Cutting the links into the roots does not change what hangs below them. */
  lemma {:induction false} BelowUncut(links: map<Hash, set<Hash>>, cut: map<Hash, set<Hash>>, roots: set<Hash>, h: Hash)
    requires forall c :: Link(cut, c) <==> Link(links, c) && c !in roots
    ensures BelowAny(cut, roots, h) <==> BelowAny(links, roots, h)
  {
    if h.HashOf? {
      BelowUncut(links, cut, roots, h.header.parent);
    }
  }

  // ---------- witnesses ----------

  function WitnessInserted(v: BufferView, h: Hash, wit: Witness, missing: set<Code>): BufferView
  {
    v.(witnesses := v.witnesses[h := wit], missing := if missing == {} then v.missing else v.missing[h := missing])
  }

  function WitnessTaken(v: BufferView, h: Hash): BufferView
  {
    if Ready(v, h) then v.(witnesses := v.witnesses - {h}, missing := v.missing - {h}) else v
  }

  function BytecodeReceived(missing: map<Hash, set<Code>>, code: Code): map<Hash, set<Code>>
  {
    map h | h in missing && missing[h] != {code} :: missing[h] - {code}
  }

  /** The blocks a received bytecode was the last one for. */
  function Unlocked(missing: map<Hash, set<Code>>, code: Code): set<Hash>
  {
    set h | h in missing && missing[h] == {code}
  }

  /** What is left of a buffer once a set of blocks has been taken out. */
  ghost predicate Minus(v: BufferView, gone: set<Hash>, w: BufferView)
  {
    && w.blocks == v.blocks - gone && w.witnesses == v.witnesses - gone && w.missing == v.missing - gone
    && w.lru == Kept(v.lru, w.blocks.Keys)
  }

  lemma MinusTaken(v: BufferView, gone: set<Hash>, w: BufferView, h: Hash)
    requires Minus(v, gone, w) && h in w.blocks
    ensures Minus(v, gone + {h}, Taken(w, h))
  {
    KeptSpec(v.lru, w.blocks.Keys);
    KeptAgree(w.lru, (set x | x in w.lru) - {h}, w.blocks.Keys - {h});
    KeptTwice(v.lru, w.blocks.Keys, w.blocks.Keys - {h});
    assert Taken(w, h).blocks.Keys == w.blocks.Keys - {h};
  }

  lemma MinusNothing(v: BufferView, limit: nat)
    requires LruOk(v.blocks, v.lru, limit)
    ensures Minus(v, {}, v)
  {
    KeptAll(v.lru, v.blocks.Keys);
  }

  ghost function HashSet(removed: seq<(Header, Witness)>): set<Hash>
  {
    set x | x in removed :: HashOf(x.0)
  }

  lemma HashSetAppend(removed: seq<(Header, Witness)>, x: (Header, Witness))
    ensures HashSet(removed + [x]) == HashSet(removed) + {HashOf(x.0)}
  {
    assert forall y :: y in removed + [x] <==> y in removed || y == x;
  }

  /** Each returned pair is a buffered block with its own witness. */
  ghost predicate Faithful(v: BufferView, removed: seq<(Header, Witness)>)
  {
    forall x :: x in removed ==>
                  HashOf(x.0) in v.blocks && HashOf(x.0) in v.witnesses && x.1 == v.witnesses[HashOf(x.0)]
  }

  ghost predicate DistinctBlocks(removed: seq<(Header, Witness)>)
  {
    forall i, j :: 0 <= i < j < |removed| ==> removed[i].0 != removed[j].0
  }

  /** No block twice, and no block before its parent. */
  ghost predicate Ordered(removed: seq<(Header, Witness)>)
  {
    forall i, j :: 0 <= i < j < |removed| ==>
                     removed[i].0 != removed[j].0 && removed[i].0.parent != HashOf(removed[j].0)
  }

  /** The children of a hash that is still to be expanded have not been seen. */
  lemma FreshChildren(links: map<Hash, set<Hash>>, root: Hash, seen: set<Hash>, done: set<Hash>,
                      children: map<Hash, set<Hash>>, stack: seq<Hash>)
    requires LinksOk(links) && Sweep(links, {root}, seen, done, children, stack) && stack != []
    ensures var p := stack[|stack| - 1];
            p in children ==> forall c :: c in children[p] ==> c.HashOf? && c.header.parent == p && c !in seen
  {
    var p := stack[|stack| - 1];
    assert p in stack;
    if p in children {
      forall c | c in children[p]
        ensures c.HashOf? && c.header.parent == p && c !in seen
      {
        BelowDepth(links, root, p);
        assert c in links[p];
      }
    }
  }

  /** `removed` lists the ready blocks among `tried`, and `w` is `v` without them. */
  ghost predicate Removal(v: BufferView, removed: seq<(Header, Witness)>, w: BufferView, tried: set<Hash>)
  {
    && Faithful(v, removed) && DistinctBlocks(removed) && Minus(v, HashSet(removed), w)
    && forall h :: h in HashSet(removed) <==> h in tried && h in v.blocks && Ready(v, h)
  }

  lemma RemovalStart(v: BufferView, limit: nat)
    requires LruOk(v.blocks, v.lru, limit)
    ensures Removal(v, [], v, {})
  {
    MinusNothing(v, limit);
    assert HashSet([]) == {};
  }

  lemma RemovalStep(v: BufferView, removed: seq<(Header, Witness)>, w: BufferView, tried: set<Hash>, h: Hash)
    requires BlocksOk(w.blocks) && Removal(v, removed, w, tried) && h !in tried
    ensures if h in w.blocks && Ready(w, h)
            then Removal(v, removed + [(w.blocks[h], w.witnesses[h])], Taken(w, h), tried + {h})
            else Removal(v, removed, w, tried + {h})
  {
    if h in w.blocks && Ready(w, h) {
      MinusTaken(v, HashSet(removed), w, h);
      HashSetAppend(removed, (w.blocks[h], w.witnesses[h]));
      assert forall x :: x in removed ==> HashOf(x.0) in HashSet(removed);
    }
  }

  lemma MinusTwice(v: BufferView, a: set<Hash>, mid: BufferView, b: set<Hash>, w: BufferView)
    requires Minus(v, a, mid) && Minus(mid, b, w)
    ensures Minus(v, a + b, w)
  {
    KeptTwice(v.lru, mid.blocks.Keys, w.blocks.Keys);
  }

  lemma HashSetJoin(a: seq<(Header, Witness)>, b: seq<(Header, Witness)>)
    ensures HashSet(a + b) == HashSet(a) + HashSet(b)
  {
    assert forall y :: y in a + b <==> y in a || y in b;
  }

  lemma OrderedJoin(a: seq<(Header, Witness)>, b: seq<(Header, Witness)>, p: Hash, done: set<Hash>)
    requires Ordered(a) && DistinctBlocks(b)
    requires forall x :: x in a ==> x.0.parent in done
    requires forall y :: y in b ==> y.0.parent == p && HashOf(y.0) !in done && HashOf(y.0) !in HashSet(a)
    ensures Ordered(a + b)
  {
    var s := a + b;
    forall i, j | 0 <= i < j < |s|
      ensures s[i].0 != s[j].0 && s[i].0.parent != HashOf(s[j].0)
    {
      if j < |a| {
      } else if i < |a| {
        assert s[i] in a && s[j] in b && HashOf(s[i].0) in HashSet(a);
      } else {
        assert s[i] in b && s[j] in b && s[i] == b[i - |a|] && s[j] == b[j - |a|];
        assert Depth(HashOf(s[j].0)) == Depth(p) + 1;
      }
    }
  }

  /** One expansion of the worklist extends the result and keeps its order. */
  lemma RemovalGrows(v: BufferView, removed: seq<(Header, Witness)>, mid: BufferView, now: seq<(Header, Witness)>,
                     w: BufferView, p: Hash, done: set<Hash>)
    requires Faithful(v, removed) && Ordered(removed) && Minus(v, HashSet(removed), mid)
    requires Faithful(mid, now) && DistinctBlocks(now) && Minus(mid, HashSet(now), w)
    requires forall h :: h in HashSet(removed) ==> h.HashOf? && h.header.parent in done
    requires forall h :: h in HashSet(now) ==> h.HashOf? && h.header.parent == p && h !in done
    ensures Faithful(v, removed + now) && Ordered(removed + now) && Minus(v, HashSet(removed + now), w)
    ensures HashSet(removed + now) == HashSet(removed) + HashSet(now)
  {
    HashSetJoin(removed, now);
    MinusTwice(v, HashSet(removed), mid, HashSet(now), w);
    assert forall x :: x in removed ==> HashOf(x.0) in HashSet(removed);
    assert forall y :: y in now ==> HashOf(y.0) in HashSet(now);
    OrderedJoin(removed, now, p, done);
  }

  /** What a traversal has taken out so far: the ready blocks among those seen. */
  ghost predicate Collecting(v: BufferView, seen: set<Hash>, done: set<Hash>, removed: seq<(Header, Witness)>,
                             w: BufferView)
  {
    && Faithful(v, removed) && Ordered(removed) && Minus(v, HashSet(removed), w)
    && (forall h :: h in HashSet(removed) ==> h.HashOf? && h.header.parent in done)
    && (forall h :: h in HashSet(removed) <==> h in seen && h in v.blocks && Ready(v, h))
  }

  lemma CollectStep(v: BufferView, seen: set<Hash>, done: set<Hash>, removed: seq<(Header, Witness)>,
                    mid: BufferView, now: seq<(Header, Witness)>, w: BufferView, p: Hash, found: set<Hash>)
    requires Collecting(v, seen, done, removed, mid) && Removal(mid, now, w, found) && done <= seen
    requires forall c :: c in found ==> c.HashOf? && c.header.parent == p && c !in seen
    ensures Collecting(v, seen + found, done + {p}, removed + now, w)
  {
    RemovalGrows(v, removed, mid, now, w, p, done);
  }

  /**
   The outcome of a finished traversal: `removed` lists, without duplicates and parents first,
   exactly the ready blocks below the roots; only they are gone, and the parent index has lost
   the links out of everything below the roots.
   */
  ghost predicate Collected(v: BufferView, roots: set<Hash>, removed: seq<(Header, Witness)>, w: BufferView)
  {
    && Faithful(v, removed) && Ordered(removed) && Minus(v, HashSet(removed), w)
    && ReadyBelow(v, roots, HashSet(removed)) && Unlinked(v, roots, HashSet(removed), w)
  }

  ghost predicate ReadyBelow(v: BufferView, roots: set<Hash>, gone: set<Hash>)
  {
    forall h :: h in gone <==> BelowAny(v.children, roots, h) && h in v.blocks && Ready(v, h)
  }

  ghost predicate Unlinked(v: BufferView, roots: set<Hash>, gone: set<Hash>, w: BufferView)
  {
    forall c :: Link(w.children, c) <==>
                  Link(v.children, c) && c !in gone && !BelowAny(v.children, roots, c.header.parent)
  }

  lemma CollectStart(v: BufferView, root: Hash, limit: nat)
    requires LruOk(v.blocks, v.lru, limit) && !(root in v.blocks && Ready(v, root))
    ensures Sweep(v.children, {root}, {root}, {}, v.children, [root]) && Collecting(v, {root}, {}, [], v)
  {
    SweepStart(v.children, [root], {root});
    MinusNothing(v, limit);
    assert HashSet([]) == {};
  }

  lemma CollectEnd(v: BufferView, root: Hash, seen: set<Hash>, done: set<Hash>, removed: seq<(Header, Witness)>,
                   w: BufferView)
    requires Sweep(v.children, {root}, seen, done, w.children, []) && Collecting(v, seen, done, removed, w)
    ensures Collected(v, {root}, removed, w)
  {
    SweepEnd(v.children, {root}, seen, done, w.children);
  }

  lemma DroppedLink(children: map<Hash, set<Hash>>, h: Hash)
    requires h.HashOf?
    ensures forall c :: Link(Dropped(children, h.header.parent, h), c) <==> Link(children, c) && c != h
  {
    var p := h.header.parent;
    forall c | Link(children, c) && c != h
      ensures Link(Dropped(children, p, h), c)
    {
      if c.header.parent == p { assert c in children[p] - {h}; }
    }
  }

  /** Putting the root's own removal in front of the traversal below it. */
  lemma CollectWithRoot(v: BufferView, root: Hash, rest: seq<(Header, Witness)>, w: BufferView, limit: nat)
    requires BlocksOk(v.blocks) && LruOk(v.blocks, v.lru, limit) && root in v.blocks && Ready(v, root)
    requires Collected(Taken(v, root), {root}, rest, w)
    ensures Collected(v, {root}, [(v.blocks[root], v.witnesses[root])] + rest, w)
  {
    RootGone(v, root, HashSet(rest), w, limit);
    RootMembers(v, root, HashSet(rest), w);
    RootInFront(v, root, (v.blocks[root], v.witnesses[root]), rest);
  }

  lemma RootInFront(v: BufferView, root: Hash, first: (Header, Witness), rest: seq<(Header, Witness)>)
    requires root in v.blocks && root in v.witnesses && HashOf(first.0) == root && first.1 == v.witnesses[root]
    requires Faithful(Taken(v, root), rest) && Ordered(rest) && ReadyBelow(v, {root}, {root} + HashSet(rest))
    ensures HashSet([first] + rest) == {root} + HashSet(rest)
    ensures Faithful(v, [first] + rest) && Ordered([first] + rest)
  {
    HashSetJoin([first], rest);
    HashSetAppend([], first);
    assert [] + [first] == [first];
    assert root !in HashSet(rest);
    RootFirst(v, root, first, rest);
  }

  lemma RootMembers(v: BufferView, root: Hash, gone: set<Hash>, w: BufferView)
    requires BlocksOk(v.blocks) && root in v.blocks && Ready(v, root)
    requires ReadyBelow(Taken(v, root), {root}, gone) && Unlinked(Taken(v, root), {root}, gone, w)
    ensures ReadyBelow(v, {root}, {root} + gone) && Unlinked(v, {root}, {root} + gone, w)
  {
    SameBelowRoot(v, root);
  }

  lemma RootGone(v: BufferView, root: Hash, gone: set<Hash>, w: BufferView, limit: nat)
    requires LruOk(v.blocks, v.lru, limit) && root in v.blocks && Minus(Taken(v, root), gone, w)
    ensures Minus(v, {root} + gone, w)
  {
    MinusNothing(v, limit);
    MinusTaken(v, {}, v, root);
    assert {} + {root} == {root};
    MinusTwice(v, {root}, Taken(v, root), gone, w);
  }

  lemma SameBelowRoot(v: BufferView, root: Hash)
    requires BlocksOk(v.blocks) && root in v.blocks
    ensures forall h :: BelowAny(Taken(v, root).children, {root}, h) <==> BelowAny(v.children, {root}, h)
    ensures forall c :: Link(Taken(v, root).children, c) <==> Link(v.children, c) && c != root
  {
    DroppedLink(v.children, root);
    forall h
      ensures BelowAny(Taken(v, root).children, {root}, h) <==> BelowAny(v.children, {root}, h)
    {
      BelowUncut(v.children, Taken(v, root).children, {root}, h);
    }
  }

  lemma RootFirst(v: BufferView, root: Hash, first: (Header, Witness), rest: seq<(Header, Witness)>)
    requires HashOf(first.0) == root && Ordered(rest) && root !in HashSet(rest)
    requires forall h :: h in HashSet(rest) ==> BelowAny(v.children, {root}, h)
    ensures Ordered([first] + rest)
  {
    var s := [first] + rest;
    forall i, j | 0 <= i < j < |s|
      ensures s[i].0 != s[j].0 && s[i].0.parent != HashOf(s[j].0)
    {
      if i == 0 {
        assert s[j] in rest && HashOf(s[j].0) in HashSet(rest);
        BelowDepth(v.children, root, HashOf(s[j].0));
      }
    }
  }

  /**
   If every buffered block was listed under its parent, this is still so after a traversal
   exactly when it reached no buffered block that was not ready.
   */
  lemma ListedAfterRemoval(v: BufferView, root: Hash, removed: seq<(Header, Witness)>, w: BufferView)
    requires BlocksOk(v.blocks) && AllListed(v) && Collected(v, {root}, removed, w)
    ensures AllListed(w) <==> forall h :: h in v.blocks && h != root && BelowAny(v.children, {root}, h) ==> Ready(v, h)
  {
    forall h | h in w.blocks
      ensures Link(w.children, h) <==> h == root || !BelowAny(v.children, {root}, h)
    {
      assert Link(v.children, h);
      if h == root && BelowAny(v.children, {root}, h.header.parent) {
        BelowDepth(v.children, root, h.header.parent);
      }
    }
    assert forall h :: h in v.blocks && !Ready(v, h) ==> h in w.blocks;
  }

  // ---------- the order of a removal ----------

  /** The blocks that can be taken out. */
  ghost function AllReady(v: BufferView): set<Hash>
  {
    set h | h in v.blocks && Ready(v, h)
  }

  function Hashes(removed: seq<(Header, Witness)>): seq<Hash>
  {
    seq(|removed|, i requires 0 <= i < |removed| => HashOf(removed[i].0))
  }

  ghost predicate Lists(q: seq<Hash>, s: set<Hash>)
  {
    Distinct(q) && forall x :: x in q <==> x in s
  }

  /** An order of the children of every parent, as some iteration over hash sets would give it. */
  type Order = Hash -> seq<Hash>

  ghost predicate Orders(order: Order, children: map<Hash, set<Hash>>)
  {
    forall p :: p in children ==> Lists(order(p), children[p])
  }

  /**
   The ready hashes in the order of a depth-first worklist: the top of the stack is popped, its
   children are taken out in their order and then pushed in that order.
   */
  ghost function DepthFirst(children: map<Hash, set<Hash>>, stack: seq<Hash>, ready: set<Hash>, order: Order): seq<Hash>
    decreases children.Keys, |stack|
  {
    if stack == [] then []
    else
      var p, rest := stack[|stack| - 1], stack[..|stack| - 1];
      if p !in children then DepthFirst(children, rest, ready, order)
      else Kept(order(p), ready) + DepthFirst(children - {p}, rest + order(p), ready, order)
  }

  ghost function ListOf(s: set<Hash>): (q: seq<Hash>)
    ensures Lists(q, s)
  {
    if s == {} then []
    else
      var x :| x in s;
      var q := ListOf(s - {x});
      DistinctAppend(q, x);
      q + [x]
  }

  ghost function SomeOrder(children: map<Hash, set<Hash>>): (order: Order)
    ensures Orders(order, children)
  {
    (p: Hash) => if p in children then ListOf(children[p]) else []
  }

  ghost function Reordered(order: Order, p: Hash, q: seq<Hash>): Order
  {
    (k: Hash) => if k == p then q else order(k)
  }

  /** However the hashes still to come are ordered, `soFar` and what they yield make up the whole traversal. */
  ghost predicate Continues(links: map<Hash, set<Hash>>, root: Hash, ready: set<Hash>, soFar: seq<Hash>,
                            children: map<Hash, set<Hash>>, stack: seq<Hash>, done: set<Hash>, chosen: Order)
  {
    forall order: Order :: Agree(order, chosen, done) ==>
                             DepthFirst(links, [root], ready, order) == soFar + DepthFirst(children, stack, ready,
                                                                                           order)
  }

  ghost predicate Agree(order: Order, chosen: Order, done: set<Hash>)
  {
    forall k :: k in done ==> order(k) == chosen(k)
  }

  lemma ContinuesStart(links: map<Hash, set<Hash>>, root: Hash, ready: set<Hash>, chosen: Order)
    ensures Continues(links, root, ready, [], links, [root], {}, chosen)
  {
  }

  ghost function Chosen(chosen: Order, children: map<Hash, set<Hash>>, p: Hash, q: seq<Hash>): Order
  {
    if p in children then Reordered(chosen, p, q) else chosen
  }

  lemma ContinuesNext(links: map<Hash, set<Hash>>, root: Hash, ready: set<Hash>, soFar: seq<Hash>,
                      children: map<Hash, set<Hash>>, stack: seq<Hash>, done: set<Hash>, chosen: Order, q: seq<Hash>)
    requires Continues(links, root, ready, soFar, children, stack, done, chosen) && stack != []
    requires Orders(chosen, links)
    requires forall k :: k in children ==> k in links && children[k] == links[k] && k !in done
    requires var p := stack[|stack| - 1];
             if p in children then Lists(q, children[p]) else q == []
    ensures var p, rest := stack[|stack| - 1], stack[..|stack| - 1];
            && Orders(Chosen(chosen, children, p, q), links)
            && Continues(links, root, ready, soFar + Kept(q, ready), children - {p}, rest + q, done + {p},
                         Chosen(chosen, children, p, q))
  {
    var p, rest := stack[|stack| - 1], stack[..|stack| - 1];
    var chosen' := Chosen(chosen, children, p, q);
    forall order: Order | Agree(order, chosen', done + {p})
      ensures DepthFirst(links, [root], ready, order) ==
              soFar + Kept(q, ready) + DepthFirst(children - {p}, rest + q, ready, order)
    {
      AgreeBefore(order, chosen, children, done, p, q);
      PopNext(children, stack, ready, order, q);
      JoinedLater(soFar, Kept(q, ready), DepthFirst(children - {p}, rest + q, ready, order));
    }
    ChosenOrders(links, children, chosen, p, q);
  }

  lemma JoinedLater(a: seq<Hash>, b: seq<Hash>, c: seq<Hash>)
    ensures a + (b + c) == a + b + c
  {
  }

  lemma ChosenOrders(links: map<Hash, set<Hash>>, children: map<Hash, set<Hash>>, chosen: Order, p: Hash, q: seq<Hash>)
    requires Orders(chosen, links) && (p in children ==> p in links && Lists(q, links[p]))
    ensures Orders(Chosen(chosen, children, p, q), links)
  {
  }

  lemma AgreeBefore(order: Order, chosen: Order, children: map<Hash, set<Hash>>, done: set<Hash>, p: Hash, q: seq<Hash>)
    requires Agree(order, Chosen(chosen, children, p, q), done + {p}) && (p in children ==> p !in done)
    ensures Agree(order, chosen, done) && (p in children ==> order(p) == q)
  {
    assert p in done + {p} && forall k :: k in done ==> k in done + {p};
  }

  lemma PopNext(children: map<Hash, set<Hash>>, stack: seq<Hash>, ready: set<Hash>, order: Order, q: seq<Hash>)
    requires stack != []
    requires var p := stack[|stack| - 1];
             if p in children then order(p) == q else q == []
    ensures var p, rest := stack[|stack| - 1], stack[..|stack| - 1];
            DepthFirst(children, stack, ready, order) ==
            Kept(q, ready) + DepthFirst(children - {p}, rest + q, ready, order)
  {
    var p, rest := stack[|stack| - 1], stack[..|stack| - 1];
    if p !in children {
      assert children - {p} == children && rest + q == rest;
    }
  }

  /** The hashes come out in depth-first order, for some order of the children. */
  ghost predicate InSomeOrder(children: map<Hash, set<Hash>>, root: Hash, ready: set<Hash>, out: seq<Hash>)
  {
    exists order: Order :: Orders(order, children) && out == DepthFirst(children, [root], ready, order)
  }

  lemma ContinuesEnd(links: map<Hash, set<Hash>>, root: Hash, ready: set<Hash>, soFar: seq<Hash>,
                     children: map<Hash, set<Hash>>, done: set<Hash>, chosen: Order)
    requires Continues(links, root, ready, soFar, children, [], done, chosen) && Orders(chosen, links)
    ensures InSomeOrder(links, root, ready, soFar)
  {
    assert DepthFirst(links, [root], ready, chosen) == soFar;
  }

  lemma {:induction false} KeptAppend(s: seq<Hash>, x: Hash, keep: set<Hash>)
    ensures Kept(s + [x], keep) == Kept(s, keep) + (if x in keep then [x] else [])
    decreases |s|
  {
    if s != [] {
      assert (s + [x])[1..] == s[1..] + [x];
      KeptAppend(s[1..], x, keep);
    }
  }

  /** A block that has not been tried is as ready as it was at the start. */
  lemma StillReady(v: BufferView, removed: seq<(Header, Witness)>, w: BufferView, tried: set<Hash>, h: Hash)
    requires Removal(v, removed, w, tried) && h !in tried
    ensures h in AllReady(w) <==> h in AllReady(v)
  {
    assert h !in HashSet(removed);
  }

  lemma RemovedInOrder(v: BufferView, removed: seq<(Header, Witness)>, hashes: seq<Hash>, i: nat,
                       taken: Option<(Header, Witness)>)
    requires i < |hashes| && Hashes(removed) == Kept(hashes[..i], AllReady(v))
    requires taken.Some? <==> hashes[i] in AllReady(v)
    requires taken.Some? ==> HashOf(taken.value.0) == hashes[i]
    ensures Hashes(if taken.Some? then removed + [taken.value] else removed) == Kept(hashes[..i + 1], AllReady(v))
  {
    assert hashes[..i + 1] == hashes[..i] + [hashes[i]];
    KeptAppend(hashes[..i], hashes[i], AllReady(v));
    if taken.Some? {
      assert Hashes(removed + [taken.value]) == Hashes(removed) + [hashes[i]];
    }
  }

  lemma HashesJoin(a: seq<(Header, Witness)>, b: seq<(Header, Witness)>)
    ensures Hashes(a + b) == Hashes(a) + Hashes(b)
  {
  }

  /** The children of a popped hash are as ready as at the start of the traversal. */
  lemma FreshReady(v: BufferView, seen: set<Hash>, done: set<Hash>, removed: seq<(Header, Witness)>, w: BufferView,
                   q: seq<Hash>)
    requires Collecting(v, seen, done, removed, w) && forall c :: c in q ==> c !in seen
    ensures Kept(q, AllReady(w)) == Kept(q, AllReady(v))
  {
    forall c | c in q
      ensures c in AllReady(w) <==> c in AllReady(v)
    {
      assert c !in HashSet(removed);
    }
    KeptAgree(q, AllReady(w), AllReady(v));
  }

  /** The hashes are children of `p` that have not been seen. */
  ghost predicate Fresh(p: Hash, q: seq<Hash>, seen: set<Hash>)
  {
    forall c :: c in q ==> c.HashOf? && c.header.parent == p && c !in seen
  }

  /** A parent's whole child set may be dropped. */
  lemma WithoutParent(blocks: map<Hash, Header>, children: map<Hash, set<Hash>>, p: Hash)
    requires ChildrenOk(blocks, children)
    ensures ChildrenOk(blocks, children - {p}) && (p in children ==> |children - {p}| < |children|)
  {
    if p in children {
      assert (children - {p}).Keys == children.Keys - {p};
      assert |(children - {p}).Keys| == |children - {p}| && |children.Keys| == |children|;
    }
  }

  lemma ExpandedOk(v: BufferView, seen: set<Hash>, done: set<Hash>, removed: seq<(Header, Witness)>, mid: BufferView,
                   now: seq<(Header, Witness)>, w: BufferView, p: Hash, q: seq<Hash>)
    requires Collecting(v, seen, done, removed, mid) && Removal(mid, now, w, Members(q)) && done <= seen
    requires Fresh(p, q, seen) && Hashes(now) == Kept(q, AllReady(mid))
    ensures Collecting(v, seen + Members(q), done + {p}, removed + now, w)
    ensures Hashes(removed + now) == Hashes(removed) + Kept(q, AllReady(v))
  {
    CollectStep(v, seen, done, removed, mid, now, w, p, Members(q));
    FreshReady(v, seen, done, removed, mid, q);
    HashesJoin(removed, now);
  }

  /** The state of a traversal: what has been seen and expanded, what has come out, and in which order. */
  ghost predicate Traversing(v: BufferView, root: Hash, seen: set<Hash>, done: set<Hash>, order: Order,
                             removed: seq<(Header, Witness)>, w: BufferView, stack: seq<Hash>)
  {
    && Sweep(v.children, {root}, seen, done, w.children, stack) && Collecting(v, seen, done, removed, w)
    && Continues(v.children, root, AllReady(v), Hashes(removed), w.children, stack, done, order)
    && Orders(order, v.children) && LinksOk(v.children)
  }

  lemma TraverseStart(v: BufferView, root: Hash, limit: nat)
    requires LruOk(v.blocks, v.lru, limit) && LinksOk(v.children) && !(root in v.blocks && Ready(v, root))
    ensures Traversing(v, root, {root}, {}, SomeOrder(v.children), [], v, [root])
  {
    CollectStart(v, root, limit);
    ContinuesStart(v.children, root, AllReady(v), SomeOrder(v.children));
  }

  lemma TraverseNext(v: BufferView, root: Hash, seen: set<Hash>, done: set<Hash>, order: Order,
                     removed: seq<(Header, Witness)>, w: BufferView, stack: seq<Hash>, pushed: seq<Hash>,
                     removed': seq<(Header, Witness)>, w': BufferView)
    requires Traversing(v, root, seen, done, order, removed, w, stack) && stack != []
    requires var p := stack[|stack| - 1];
             && w'.children == w.children - {p}
             && (if p in w.children then Lists(pushed, w.children[p]) else pushed == [])
             && Collecting(v, seen + Members(pushed), done + {p}, removed', w')
    requires Hashes(removed') == Hashes(removed) + Kept(pushed, AllReady(v))
    ensures var p := stack[|stack| - 1];
            Traversing(v, root, seen + Members(pushed), done + {p}, Chosen(order, w.children, p, pushed), removed', w',
                       stack[..|stack| - 1] + pushed)
  {
    SweepPop(v.children, {root}, seen, done, w.children, stack, pushed);
    assert Members(pushed) == (set c | c in pushed);
    ContinuesNext(v.children, root, AllReady(v), Hashes(removed), w.children, stack, done, order, pushed);
  }

  lemma TraverseEnd(v: BufferView, root: Hash, seen: set<Hash>, done: set<Hash>, order: Order,
                    removed: seq<(Header, Witness)>, w: BufferView)
    requires Traversing(v, root, seen, done, order, removed, w, [])
    ensures Collected(v, {root}, removed, w) && InSomeOrder(v.children, root, AllReady(v), Hashes(removed))
  {
    CollectEnd(v, root, seen, done, removed, w);
    ContinuesEnd(v.children, root, AllReady(v), Hashes(removed), w.children, done, order);
  }

  /** The whole removal: the root first, if it is ready, and then what is below it, depth first. */
  ghost predicate RemovedDepthFirst(v: BufferView, root: Hash, removed: seq<(Header, Witness)>)
  {
    if root in AllReady(v)
    then |removed| > 0 && HashOf(removed[0].0) == root &&
         InSomeOrder(Taken(v, root).children, root, AllReady(Taken(v, root)), Hashes(removed[1..]))
    else InSomeOrder(v.children, root, AllReady(v), Hashes(removed))
  }

  // ---------- eviction ----------

  /** The buffered blocks at or below a height. */
  ghost function UpTo(v: BufferView, number: nat): set<Hash>
  {
    set h | h in v.blocks && v.blocks[h].number <= number
  }

  /** What an eviction at a height takes: those blocks and everything linked below them. */
  ghost function Doomed(v: BufferView, number: nat): set<Hash>
  {
    set h | h in v.blocks && BelowAny(v.children, UpTo(v, number), h)
  }

  function Above(earliest: map<nat, set<Hash>>, number: nat): map<nat, set<Hash>>
  {
    map n | n in earliest && number < n :: earliest[n]
  }

  /** Coherence of everything but the number index. */
  ghost predicate OtherwiseCoherent(v: BufferView, limit: nat)
  {
    && BlocksOk(v.blocks) && LruOk(v.blocks, v.lru, limit)
    && ChildrenOk(v.blocks, v.children) && MissingOk(v.witnesses, v.missing)
  }

  lemma TakenOtherwise(v: BufferView, h: Hash, limit: nat)
    requires OtherwiseCoherent(v, limit)
    ensures OtherwiseCoherent(Taken(v, h), limit)
  {
    if h in v.blocks {
      ChildrenDropped(v.blocks, v.children, h);
      KeptSpec(v.lru, (set x | x in v.lru) - {h});
    }
  }

  lemma LinkTaken(v: BufferView, h: Hash)
    requires BlocksOk(v.blocks)
    ensures h in v.blocks ==> forall c :: Link(Taken(v, h).children, c) <==> Link(v.children, c) && c != h
  {
    if h in v.blocks {
      DroppedLink(v.children, h);
    }
  }

  lemma EarliestAbove(v: BufferView, number: nat, w: BufferView)
    requires EarliestOk(v.blocks, v.earliest)
    requires w.blocks == v.blocks - UpTo(v, number) && w.earliest == Above(v.earliest, number)
    ensures EarliestOk(w.blocks, w.earliest)
  {
  }

  /** Links that survive the loss of `gone`. */
  ghost predicate LinksLost(v: BufferView, gone: set<Hash>, w: BufferView)
  {
    forall c :: Link(w.children, c) <==> Link(v.children, c) && c !in gone
  }

  lemma EvictStep(v: BufferView, gone: set<Hash>, w: BufferView, h: Hash, limit: nat)
    requires OtherwiseCoherent(w, limit) && Minus(v, gone, w) && LinksLost(v, gone, w) && h in w.blocks
    ensures Minus(v, gone + {h}, Taken(w, h)) && LinksLost(v, gone + {h}, Taken(w, h))
    ensures OtherwiseCoherent(Taken(w, h), limit)
  {
    MinusTaken(v, gone, w, h);
    LinkTaken(w, h);
    TakenOtherwise(w, h, limit);
  }

  /** The eviction of the roots, after the first `i` of them. */
  ghost predicate Evicting(v: BufferView, number: nat, roots: seq<Hash>, i: nat, w: BufferView, limit: nat)
    requires i <= |roots|
  {
    && OtherwiseCoherent(w, limit) && w.earliest == Above(v.earliest, number)
    && Minus(v, Members(roots[..i]), w) && LinksLost(v, Members(roots[..i]), w)
  }

  lemma EvictStart(v: BufferView, number: nat, roots: seq<Hash>, limit: nat)
    requires Coherent(v, limit)
    ensures Evicting(v, number, roots, 0, v.(earliest := Above(v.earliest, number)), limit)
  {
    MinusNothing(v, limit);
    assert Members(roots[..0]) == {};
  }

  lemma EvictNext(v: BufferView, number: nat, roots: seq<Hash>, i: nat, w: BufferView, limit: nat)
    requires i < |roots| && Evicting(v, number, roots, i, w, limit)
    requires Distinct(roots) && (forall h :: h in roots <==> h in UpTo(v, number)) && BlocksOk(v.blocks)
    ensures Evicting(v, number, roots, i + 1, Taken(w, roots[i]), limit)
  {
    NextMember(roots, i);
    var h := roots[i];
    assert h in w.blocks;
    EvictStep(v, Members(roots[..i]), w, h, limit);
    assert w.blocks[h] == v.blocks[h] && v.blocks[h].number <= number;
  }

  lemma EvictedRoots(v: BufferView, number: nat, roots: seq<Hash>, w: BufferView, limit: nat)
    requires Coherent(v, limit) && Evicting(v, number, roots, |roots|, w, limit)
    requires forall h :: h in roots <==> h in UpTo(v, number)
    ensures Coherent(w, limit) && Minus(v, UpTo(v, number), w) && LinksLost(v, UpTo(v, number), w)
  {
    assert roots[..|roots|] == roots;
    assert Members(roots) == UpTo(v, number);
    EarliestAbove(v, number, w);
  }

  /** Sweeping below roots that are already gone takes out exactly what the two steps together should. */
  lemma EvictEnd(v: BufferView, number: nat, mid: BufferView, seen: set<Hash>, w: BufferView)
    requires ChildrenOk(v.blocks, v.children)
    requires Minus(v, UpTo(v, number), mid) && LinksLost(v, UpTo(v, number), mid)
    requires forall h :: h in seen <==> BelowAny(mid.children, UpTo(v, number), h)
    requires Minus(mid, seen, w)
    ensures Minus(v, Doomed(v, number), w) && seen == Doomed(v, number)
  {
    var roots := UpTo(v, number);
    MinusTwice(v, roots, mid, seen, w);
    forall h
      ensures h in seen <==> h in Doomed(v, number)
    {
      BelowUncut(v.children, mid.children, roots, h);
    }
    assert roots + seen == seen;
    assert seen == Doomed(v, number);
  }

  lemma DoomedLinks(v: BufferView, number: nat, mid: BufferView, w: BufferView)
    requires ChildrenOk(v.blocks, v.children) && LinksLost(v, UpTo(v, number), mid)
    requires forall k :: k in w.children <==> k in mid.children && !BelowAny(mid.children, UpTo(v, number), k)
    requires forall k :: k in w.children ==> w.children[k] == mid.children[k]
    ensures LinksLost(v, Doomed(v, number), w)
  {
    var roots := UpTo(v, number);
    forall c
      ensures Link(w.children, c) <==> Link(v.children, c) && c !in Doomed(v, number)
    {
      BelowUncut(v.children, mid.children, roots, c);
      if c.HashOf? { BelowUncut(v.children, mid.children, roots, c.header.parent); }
    }
  }

  /** The eviction of the children of `p`, after the first `i` of them. */
  ghost predicate EvictingEach(p: Hash, hashes: seq<Hash>, i: nat, v: BufferView, seen: set<Hash>, w: BufferView)
    requires i <= |hashes|
  {
    && Minus(v, seen + Members(hashes[..i]), w)
    && forall h :: h in hashes && h !in Members(hashes[..i]) ==> h in w.blocks && w.blocks[h].parent == p
  }

  lemma EvictingStarts(p: Hash, hashes: seq<Hash>, v: BufferView, seen: set<Hash>, w: BufferView)
    requires Minus(v, seen, w) && forall h :: h in hashes ==> h in w.blocks && w.blocks[h].parent == p
    ensures EvictingEach(p, hashes, 0, v, seen, w)
  {
    assert seen + Members(hashes[..0]) == seen;
  }

  lemma EvictingNext(p: Hash, hashes: seq<Hash>, i: nat, v: BufferView, seen: set<Hash>, w: BufferView, limit: nat)
    requires i < |hashes| && Distinct(hashes) && EvictingEach(p, hashes, i, v, seen, w)
    requires Coherent(w, limit) && p !in w.children
    ensures Coherent(Taken(w, hashes[i]), limit) && Taken(w, hashes[i]).children == w.children
    ensures EvictingEach(p, hashes, i + 1, v, seen, Taken(w, hashes[i]))
  {
    NextMember(hashes, i);
    TakenCoherent(w, hashes[i], limit);
    MinusTaken(v, seen + Members(hashes[..i]), w, hashes[i]);
    assert seen + Members(hashes[..i]) + {hashes[i]} == seen + Members(hashes[..i + 1]);
  }

  lemma NothingGone(v: BufferView, roots: set<Hash>, limit: nat)
    requires LruOk(v.blocks, v.lru, limit) && MissingOk(v.witnesses, v.missing)
    requires forall h :: h in roots ==> h !in v.blocks && h !in v.witnesses
    ensures Minus(v, roots, v)
  {
    KeptAll(v.lru, v.blocks.Keys);
  }

  lemma BucketListed(blocks: map<Hash, Header>, all: map<nat, set<Hash>>, earliest: map<nat, set<Hash>>, first: nat,
                     hashes: seq<Hash>, bucket: seq<Hash>)
    requires EarliestOk(blocks, all) && first in earliest
    requires forall n :: n in earliest ==> n in all && earliest[n] == all[n]
    requires Distinct(hashes) && forall h :: h in hashes <==> h in blocks && blocks[h].number !in earliest
    requires Distinct(bucket) && forall h :: h in bucket <==> h in earliest[first]
    ensures Distinct(hashes + bucket)
    ensures forall h :: h in hashes + bucket <==> h in blocks && blocks[h].number !in earliest - {first}
  {
    var s := hashes + bucket;
    forall i, j | 0 <= i < j < |s|
      ensures s[i] != s[j]
    {
      if i < |hashes| <= j { assert s[i] in hashes && s[j] in bucket; }
    }
    forall h
      ensures h in s <==> h in blocks && blocks[h].number !in earliest - {first}
    {
      if h in blocks && blocks[h].number == first { assert h in all[first]; }
    }
  }

  /** Insertion, with or without an eviction, and eviction by height keep every buffered block listed. */
  lemma ListedAfterInsertion(v: BufferView, block: Header, limit: nat)
    requires BlocksOk(v.blocks) && AllListed(v)
    ensures AllListed(Inserted(v, block, limit))
  {
    var w := Indexed(v, block);
    assert AllListed(w);
    if HashOf(block) !in v.lru && limit <= |v.lru| && v.lru != [] {
      LinkTaken(w.(lru := v.lru[1..] + [HashOf(block)]), v.lru[0]);
    }
  }

  lemma ListedAfterEviction(v: BufferView, gone: set<Hash>, w: BufferView)
    requires AllListed(v) && Minus(v, gone, w) && LinksLost(v, gone, w)
    ensures AllListed(w)
  {
  }

  /** What can happen to a buffer. */
  datatype BufferStep =
    | Put(block: Header)
    | TakeOne(hash: Hash)
    | TakeBranch(root: Hash)
    | EvictUpTo(number: nat)
    | PutWitness(hash: Hash, wit: Witness, missing: set<Code>)
    | TakeWitness(hash: Hash)
    | Receive(code: Code)

  ghost predicate Stepped(v: BufferView, step: BufferStep, w: BufferView, limit: nat)
  {
    match step
    case Put(block) => w == Inserted(v, block, limit)
    case TakeOne(hash) => w == Taken(v, hash)
    case TakeBranch(root) => exists removed :: Collected(v, {root}, removed, w)
    case EvictUpTo(number) => Minus(v, Doomed(v, number), w) && LinksLost(v, Doomed(v, number), w)
    case PutWitness(hash, wit, missing) => w == WitnessInserted(v, hash, wit, missing)
    case TakeWitness(hash) => w == WitnessTaken(v, hash)
    case Receive(code) => w == v.(missing := BytecodeReceived(v.missing, code))
  }

  /** Every buffered block a branch removal reaches below its root is ready. */
  ghost predicate Clean(v: BufferView, step: BufferStep)
  {
    step.TakeBranch? ==>
      forall h :: h in v.blocks && h != step.root && BelowAny(v.children, {step.root}, h) ==> Ready(v, h)
  }

  lemma ListedAfterStep(v: BufferView, step: BufferStep, w: BufferView, limit: nat)
    requires BlocksOk(v.blocks) && AllListed(v) && Stepped(v, step, w, limit)
    ensures BlocksOk(w.blocks) && (AllListed(w) <==> Clean(v, step))
  {
    StepKeepsBlocksOk(v, step, w, limit);
    match step
    case Put(block) => ListedAfterInsertion(v, block, limit);
    case TakeOne(hash) => ListedAfterTaking(v, hash);
    case TakeBranch(root) =>
      var removed :| Collected(v, {root}, removed, w);
      ListedAfterRemoval(v, root, removed, w);
    case EvictUpTo(number) => ListedAfterEviction(v, Doomed(v, number), w);
    case _ => assert w.blocks == v.blocks && w.children == v.children;
  }

  lemma ListedAfterTaking(v: BufferView, h: Hash)
    requires BlocksOk(v.blocks) && AllListed(v)
    ensures AllListed(Taken(v, h))
  {
    LinkTaken(v, h);
  }

  lemma StepKeepsBlocksOk(v: BufferView, step: BufferStep, w: BufferView, limit: nat)
    requires BlocksOk(v.blocks) && Stepped(v, step, w, limit)
    ensures BlocksOk(w.blocks)
  {
    match step
    case Put(block) => assert BlocksOk(Indexed(v, block).blocks);
    case TakeBranch(root) =>
      var removed :| Collected(v, {root}, removed, w);
      assert w.blocks == v.blocks - HashSet(removed);
    case _ =>
  }

  ghost predicate IsTrace(trace: seq<BufferView>, steps: seq<BufferStep>, limit: nat)
  {
    && |trace| == |steps| + 1 && BlocksOk(trace[0].blocks) && AllListed(trace[0])
    && forall i :: 0 <= i < |steps| ==> Stepped(trace[i], steps[i], trace[i + 1], limit)
  }

  /** The parent index is complete all along a run exactly when every branch removal in it is clean. */
  lemma {:induction false} ListedAlongTrace(trace: seq<BufferView>, steps: seq<BufferStep>, limit: nat)
    requires IsTrace(trace, steps, limit)
    ensures (forall i :: 0 <= i < |trace| ==> AllListed(trace[i])) <==>
            (forall i :: 0 <= i < |steps| ==> Clean(trace[i], steps[i]))
    decreases |steps|
  {
    if steps != [] {
      ListedAfterStep(trace[0], steps[0], trace[1], limit);
      if AllListed(trace[1]) {
        var rest, later := trace[1..], steps[1..];
        assert forall i :: 0 <= i < |later| ==> rest[i] == trace[i + 1] && later[i] == steps[i + 1];
        ListedAlongTrace(rest, later, limit);
        assert forall i :: 0 < i < |trace| ==> trace[i] == rest[i - 1];
        assert forall i :: 0 < i < |steps| ==> steps[i] == later[i - 1];
      }
    }
  }

  /** Lists a hash set in some order. */
  method Listed(s: set<Hash>) returns (q: seq<Hash>)
    ensures Distinct(q) && forall x :: x in q <==> x in s
  {
    q := [];
    var rest := s;
    while rest != {}
      invariant Distinct(q) && rest <= s
      invariant forall x :: x in q <==> x in s && x !in rest
    {
      var x :| x in rest;
      DistinctAppend(q, x);
      q, rest := q + [x], rest - {x};
    }
  }

  class BlockBuffer {
    var blocks: map<Hash, Header>
    var witnesses: map<Hash, Witness>
    var missing: map<Hash, set<Code>>
    var children: map<Hash, set<Hash>>
    var earliest: map<nat, set<Hash>>
    var lru: seq<Hash>
    const limit: nat

    ghost function View(): BufferView
      reads this
    {
      BufferView(blocks, witnesses, missing, children, earliest, lru)
    }

    ghost predicate Valid()
      reads this
    {
      limit >= 1 && Coherent(View(), limit)
    }

    constructor (limit: nat)
      requires limit >= 1
      ensures Valid() && this.limit == limit
      ensures View() == BufferView(map[], map[], map[], map[], map[], [])
    {
      this.limit := limit;
      blocks, witnesses, missing, children, earliest, lru := map[], map[], map[], map[], map[], [];
    }

    /** The lowest buffered block on the path down from `hash` through buffered blocks. */
    method LowestAncestor(hash: Hash) returns (r: Option<Header>)
      requires Valid()
      ensures r.None? <==> hash !in blocks
      ensures r.Some? ==> Lowest(blocks, hash, r.value)
    {
      if hash !in blocks {
        return None;
      }
      var current := blocks[hash];
      while current.parent in blocks
        invariant HashOf(current) in blocks
        invariant Buffered(blocks, hash, HashOf(current))
        decreases current
      {
        BufferedExtends(blocks, hash, HashOf(current));
        current := blocks[current.parent];
      }
      r := Some(current);
    }

    method InsertBlock(block: Header)
      requires Valid()
      modifies this
      ensures Valid() && View() == Inserted(old(View()), block, limit)
      ensures OldestMadeRoom(old(View()), block, limit, View())
    {
      InsertedCoherent(View(), block, limit);
      InsertedMakesRoom(View(), block, limit);
      InsertAndEvict(block);
    }

    method InsertAndEvict(block: Header)
      modifies this
      ensures View() == Inserted(old(View()), block, limit)
    {
      var hash := HashOf(block);
      children := Added(children, block.parent, hash);
      earliest := Added(earliest, block.number, hash);
      blocks := blocks[hash := block];
      var evicted := InsertHashAndGetEvicted(hash);
      if evicted.Some? {
        ghost var links := children;
        var evictedBlock := EvictBlock(evicted.value);
        if evictedBlock.Some? {
          DroppedTwice(links, evictedBlock.value.parent, evicted.value);
          RemoveFromParent(evictedBlock.value.parent, evicted.value);
        }
      }
    }

    method InsertHashAndGetEvicted(entry: Hash) returns (evicted: Option<Hash>)
      modifies this`lru
      ensures entry in old(lru) ==> evicted.None? && lru == Without(old(lru), entry) + [entry]
      ensures entry !in old(lru) && limit <= |old(lru)| && old(lru) != [] ==>
                evicted == Some(old(lru)[0]) && lru == old(lru)[1..] + [entry]
      ensures entry !in old(lru) && !(limit <= |old(lru)| && old(lru) != []) ==>
                evicted.None? && lru == old(lru) + [entry]
    {
      evicted := None;
      if entry !in lru && limit <= |lru| && lru != [] {
        evicted := Some(lru[0]);
        lru := lru[1..];
      }
      if entry in lru {
        lru := Without(lru, entry);
      }
      lru := lru + [entry];
    }

    method RemoveFromEarliestBlocks(number: nat, hash: Hash)
      modifies this`earliest
      ensures earliest == Dropped(old(earliest), number, hash)
    {
      if number in earliest {
        var entry := earliest[number] - {hash};
        if entry == {} {
          earliest := earliest - {number};
        } else {
          earliest := earliest[number := entry];
        }
      }
    }

    method RemoveFromParent(parent: Hash, hash: Hash)
      modifies this`children
      ensures children == Dropped(old(children), parent, hash)
    {
      if parent in children {
        var entry := children[parent] - {hash};
        if entry == {} {
          children := children - {parent};
        } else {
          children := children[parent := entry];
        }
      }
    }

    /** Takes the block out together with its witness, but only if nothing it needs is missing. */
    method RemoveBlock(hash: Hash) returns (r: Option<(Header, Witness)>)
      requires Valid()
      modifies this
      ensures Valid()
      ensures if hash in old(blocks) && Ready(old(View()), hash)
              then r == Some((old(blocks)[hash], old(witnesses)[hash])) && View() == Taken(old(View()), hash)
              else r == None && View() == old(View())
      ensures r.Some? <==> hash in old(blocks) && hash in old(witnesses) && hash !in old(missing)
      ensures r.Some? ==> WithoutTraces(old(View()), hash, View())
    {
      if hash !in blocks {
        return None;
      }
      TakenCoherent(View(), hash, limit);
      TakenLeavesNoTrace(View(), hash);
      var wit := RemoveWitness(hash);
      if wit.None? {
        return None;
      }
      var block := blocks[hash];
      RemoveFromIndexes(block, hash);
      r := Some((block, wit.value));
    }

    method RemoveFromIndexes(block: Header, hash: Hash)
      modifies this`blocks, this`earliest, this`children, this`lru
      ensures View() == old(View()).(blocks := old(blocks) - {hash},
                                     earliest := Dropped(old(earliest), block.number, hash),
                children := Dropped(old(children), block.parent, hash), lru := Without(old(lru), hash))
    {
      blocks := blocks - {hash};
      RemoveFromEarliestBlocks(block.number, hash);
      RemoveFromParent(block.parent, hash);
      lru := Without(lru, hash);
    }

    method EvictBlock(hash: Hash) returns (r: Option<Header>)
      modifies this
      ensures View() == Taken(old(View()), hash)
      ensures r == if hash in old(blocks) then Some(old(blocks)[hash]) else None
    {
      if hash !in blocks {
        return None;
      }
      var block := blocks[hash];
      witnesses := witnesses - {hash};
      missing := missing - {hash};
      RemoveFromIndexes(block, hash);
      r := Some(block);
    }

    /** Takes out those of the given blocks that are ready. */
    method RemoveEach(hashes: seq<Hash>) returns (removed: seq<(Header, Witness)>)
      requires Valid() && Distinct(hashes)
      requires forall h :: h in hashes ==> h.HashOf? && h.header.parent !in children
      modifies this
      ensures Valid() && children == old(children)
      ensures Removal(old(View()), removed, View(), Members(hashes))
      ensures Hashes(removed) == Kept(hashes, AllReady(old(View())))
    {
      removed := [];
      ghost var v := View();
      RemovalStart(v, limit);
      assert Members(hashes[..0]) == {};
      for i := 0 to |hashes|
        invariant Valid() && children == v.children
        invariant Removal(v, removed, View(), Members(hashes[..i]))
        invariant Hashes(removed) == Kept(hashes[..i], AllReady(v))
      {
        NextMember(hashes, i);
        removed := RemoveNext(hashes, i, removed, v);
      }
      assert hashes[..|hashes|] == hashes;
    }

    method RemoveNext(hashes: seq<Hash>, i: nat, removed: seq<(Header, Witness)>, ghost v: BufferView)
        returns (removed': seq<(Header, Witness)>)
      requires i < |hashes| && hashes[i] !in Members(hashes[..i])
      requires Valid() && Removal(v, removed, View(), Members(hashes[..i]))
      requires Hashes(removed) == Kept(hashes[..i], AllReady(v))
      requires hashes[i].HashOf? && hashes[i].header.parent !in children
      modifies this
      ensures Valid() && Removal(v, removed', View(), Members(hashes[..i]) + {hashes[i]}) && children == old(children)
      ensures Hashes(removed') == Kept(hashes[..i + 1], AllReady(v))
    {
      RemovalStep(v, removed, View(), Members(hashes[..i]), hashes[i]);
      StillReady(v, removed, View(), Members(hashes[..i]), hashes[i]);
      var taken := RemoveBlock(hashes[i]);
      RemovedInOrder(v, removed, hashes, i, taken);
      removed' := if taken.Some? then removed + [taken.value] else removed;
    }

    /** Takes out every ready block below the given one, parents before children. */
    method RemoveChildren(parentHash: Hash) returns (removed: seq<(Header, Witness)>)
      requires Valid() && !(parentHash in blocks && Ready(View(), parentHash))
      modifies this
      ensures Valid() && Collected(old(View()), {parentHash}, removed, View())
      ensures InSomeOrder(old(children), parentHash, AllReady(old(View())), Hashes(removed))
    {
      ghost var v, seen, done: set<Hash> := View(), {parentHash}, {};
      ghost var order := SomeOrder(v.children);
      removed := [];
      TraverseStart(v, parentHash, limit);
      var stack := [parentHash];
      while stack != []
        invariant Valid() && Traversing(v, parentHash, seen, done, order, removed, View(), stack)
        decreases |children|, |stack|
      {
        var p := stack[|stack| - 1];
        ghost var w, before := View(), removed;
        var pushed;
        pushed, removed := Expand(p, removed, v, parentHash, seen, done, stack);
        TraverseNext(v, parentHash, seen, done, order, before, w, stack, pushed, removed, View());
        order := Chosen(order, w.children, p, pushed);
        seen, done := seen + Members(pushed), done + {p};
        stack := stack[..|stack| - 1] + pushed;
      }
      TraverseEnd(v, parentHash, seen, done, order, removed, View());
    }

    /** Drops a parent's whole child set and takes out the children that are ready. */
    method Expand(p: Hash, removed: seq<(Header, Witness)>, ghost v: BufferView, ghost root: Hash,
                  ghost seen: set<Hash>, ghost done: set<Hash>, ghost stack: seq<Hash>)
        returns (pushed: seq<Hash>, removed': seq<(Header, Witness)>)
      requires Valid() && LinksOk(v.children) && Sweep(v.children, {root}, seen, done, children, stack)
      requires stack != [] && p == stack[|stack| - 1]
      requires Collecting(v, seen, done, removed, View())
      modifies this
      ensures Valid() && children == old(children) - {p}
      ensures if p in old(children) then Lists(pushed, old(children)[p]) && |children| < |old(children)|
              else pushed == [] && children == old(children)
      ensures Hashes(removed') == Hashes(removed) + Kept(pushed, AllReady(v))
      ensures Collecting(v, seen + Members(pushed), done + {p}, removed', View())
    {
      FreshChildren(v.children, root, seen, done, children, stack);
      pushed, removed' := [], removed;
      if p in children {
        pushed := Listed(children[p]);
        removed' := ExpandListed(p, pushed, removed, v, seen, done);
      }
    }

    method ExpandListed(p: Hash, pushed: seq<Hash>, removed: seq<(Header, Witness)>, ghost v: BufferView,
                        ghost seen: set<Hash>, ghost done: set<Hash>)
        returns (removed': seq<(Header, Witness)>)
      requires Valid() && p in children && Distinct(pushed) && Fresh(p, pushed, seen) && done <= seen
      requires Collecting(v, seen, done, removed, View())
      modifies this
      ensures Valid() && children == old(children) - {p} && |children| < |old(children)|
      ensures Hashes(removed') == Hashes(removed) + Kept(pushed, AllReady(v))
      ensures Collecting(v, seen + Members(pushed), done + {p}, removed', View())
    {
      WithoutParent(blocks, children, p);
      children := children - {p};
      ghost var mid := View();
      var now := RemoveEach(pushed);
      ExpandedOk(v, seen, done, removed, mid, now, View(), p, pushed);
      removed' := removed + now;
    }

    /** Takes out the given block and everything linked below it, as far as it is ready. */
    method RemoveBlockWithChildren(parentHash: Hash) returns (removed: seq<(Header, Witness)>)
      requires Valid()
      modifies this
      ensures Valid() && Collected(old(View()), {parentHash}, removed, View())
      ensures RemovedDepthFirst(old(View()), parentHash, removed)
    {
      ghost var v := View();
      var first := RemoveBlock(parentHash);
      removed := RemoveChildren(parentHash);
      if first.Some? {
        CollectWithRoot(v, parentHash, removed, View(), limit);
        ghost var below := removed;
        removed := [first.value] + removed;
        assert removed[1..] == below;
      }
    }

    /** Discards every block at or below a height and everything linked below those. */
    method EvictOldBlocks(number: nat)
      requires Valid()
      modifies this
      ensures Valid()
      ensures Minus(old(View()), Doomed(old(View()), number), View())
      ensures LinksLost(old(View()), Doomed(old(View()), number), View())
    {
      ghost var v := View();
      var roots := PopEarliest(number);
      EvictRoots(roots, v, number);
      ghost var mid := View();
      ghost var seen := EvictChildren(roots, UpTo(v, number));
      EvictEnd(v, number, mid, seen, View());
      DoomedLinks(v, number, mid, View());
    }

    /** Pops number buckets off the front, up to the height, and lists the hashes they held. */
    method PopEarliest(number: nat) returns (hashes: seq<Hash>)
      requires Valid()
      modifies this`earliest
      ensures earliest == Above(old(earliest), number)
      ensures Distinct(hashes) && forall h :: h in hashes <==> h in UpTo(View(), number)
    {
      ghost var all := earliest;
      hashes := [];
      while exists n :: n in earliest && n <= number
        invariant forall n :: n in earliest ==> n in all && earliest[n] == all[n]
        invariant forall n :: n in all && n !in earliest ==> n <= number
        invariant Distinct(hashes)
        invariant forall h :: h in hashes <==> h in blocks && blocks[h].number !in earliest
        decreases |earliest|
      {
        var first := FirstKey(earliest.Keys);
        var bucket := Listed(earliest[first]);
        BucketListed(blocks, all, earliest, first, hashes, bucket);
        earliest := earliest - {first};
        hashes := hashes + bucket;
      }
      forall h | h in blocks
        ensures blocks[h].number in earliest <==> blocks[h].number > number
      {
        assert blocks[h].number in all;
      }
    }

    method EvictRoots(roots: seq<Hash>, ghost v: BufferView, ghost number: nat)
      requires Coherent(v, limit) && limit >= 1 && View() == v.(earliest := Above(v.earliest, number))
      requires Distinct(roots) && forall h :: h in roots <==> h in UpTo(v, number)
      modifies this
      ensures Valid() && Minus(v, UpTo(v, number), View()) && LinksLost(v, UpTo(v, number), View())
    {
      EvictStart(v, number, roots, limit);
      for i := 0 to |roots|
        invariant Evicting(v, number, roots, i, View(), limit)
      {
        EvictNext(v, number, roots, i, View(), limit);
        var _ := EvictBlock(roots[i]);
      }
      EvictedRoots(v, number, roots, View(), limit);
    }

    /** Evicts everything linked below the given hashes, which are no longer buffered themselves. */
    method EvictChildren(hashes: seq<Hash>, ghost roots: set<Hash>) returns (ghost seen: set<Hash>)
      requires Valid() && forall h :: h in roots <==> h in hashes
      requires forall h :: h in hashes ==> h !in blocks && h !in witnesses
      modifies this
      ensures Valid() && Minus(old(View()), seen, View())
      ensures forall h :: h in seen <==> BelowAny(old(children), roots, h)
      ensures forall k :: k in children <==> k in old(children) && !BelowAny(old(children), roots, k)
      ensures forall k :: k in children ==> children[k] == old(children)[k]
    {
      ghost var v, done: set<Hash> := View(), {};
      seen := roots;
      SweepStart(children, hashes, roots);
      NothingGone(v, roots, limit);
      var stack := hashes;
      while stack != []
        invariant Valid() && Sweep(v.children, roots, seen, done, children, stack)
        invariant Minus(v, seen, View())
        decreases |children|, |stack|
      {
        var p := stack[|stack| - 1];
        ghost var held := children;
        var pushed := EvictFamily(p, v, seen);
        SweepPop(v.children, roots, seen, done, held, stack, pushed);
        seen, done := seen + (set c | c in pushed), done + {p};
        stack := stack[..|stack| - 1] + pushed;
      }
      SweepEnd(v.children, roots, seen, done, children);
    }

    /** Drops a parent's child set and evicts the children. */
    method EvictFamily(p: Hash, ghost v: BufferView, ghost seen: set<Hash>) returns (pushed: seq<Hash>)
      requires Valid() && Minus(v, seen, View())
      modifies this
      ensures Valid() && children == old(children) - {p}
      ensures forall c :: c in pushed <==> p in old(children) && c in old(children)[p]
      ensures p !in old(children) ==> pushed == []
      ensures Minus(v, seen + (set c | c in pushed), View())
    {
      pushed := [];
      assert seen + {} == seen;
      if p in children {
        pushed := Listed(children[p]);
        children := children - {p};
        EvictEach(p, pushed, v, seen);
      }
    }

    method EvictEach(p: Hash, hashes: seq<Hash>, ghost v: BufferView, ghost seen: set<Hash>)
      requires Valid() && Minus(v, seen, View()) && Distinct(hashes) && p !in children
      requires forall h :: h in hashes ==> h in blocks && blocks[h].parent == p
      modifies this
      ensures Valid() && children == old(children)
      ensures Minus(v, seen + (set h | h in hashes), View())
    {
      ghost var links := children;
      EvictingStarts(p, hashes, v, seen, View());
      for i := 0 to |hashes|
        invariant Valid() && children == links && EvictingEach(p, hashes, i, v, seen, View())
      {
        EvictingNext(p, hashes, i, v, seen, View(), limit);
        var _ := EvictBlock(hashes[i]);
      }
      assert hashes[..|hashes|] == hashes;
      assert seen + Members(hashes) == seen + (set h | h in hashes);
    }

    method InsertWitness(hash: Hash, wit: Witness, missingCodes: set<Code>)
      requires Valid()
      modifies this
      ensures Valid() && View() == WitnessInserted(old(View()), hash, wit, missingCodes)
      ensures witnesses == old(witnesses)[hash := wit] && blocks == old(blocks)
      ensures if missingCodes == {} then missing == old(missing) else missing == old(missing)[hash := missingCodes]
    {
      witnesses := witnesses[hash := wit];
      if missingCodes != {} {
        missing := missing[hash := missingCodes];
      }
    }

    method RemoveWitness(hash: Hash) returns (r: Option<Witness>)
      requires Valid()
      modifies this`witnesses, this`missing
      ensures Valid() && View() == WitnessTaken(old(View()), hash)
      ensures r == if Ready(old(View()), hash) then Some(old(witnesses)[hash]) else None
      ensures r.Some? <==> hash in old(witnesses) && hash !in old(missing)
      ensures witnesses == (if r.Some? then old(witnesses) - {hash} else old(witnesses)) && missing == old(missing)
    {
      r := None;
      if hash !in missing || missing[hash] == {} {
        missing := missing - {hash};
        if hash in witnesses {
          r := Some(witnesses[hash]);
          witnesses := witnesses - {hash};
        }
      }
    }

    /** Crosses a received bytecode off every missing set and reports the blocks it was the last one for. */
    method OnBytecodeReceived(code: Code) returns (unlocked: set<Hash>)
      requires Valid()
      modifies this`missing
      ensures Valid() && missing == BytecodeReceived(old(missing), code)
      ensures unlocked == Unlocked(old(missing), code)
      ensures forall h :: h in unlocked <==> h in old(missing) && old(missing)[h] == {code}
      ensures forall h :: h in missing <==> h in old(missing) && old(missing)[h] != {code}
      ensures forall h :: h in missing ==> missing[h] == old(missing)[h] - {code}
    {
      unlocked := {};
      var todo := missing.Keys;
      while todo != {}
        invariant todo <= missing.Keys <= old(missing).Keys
        invariant forall h :: h in todo ==> missing[h] == old(missing)[h]
        invariant forall h :: h in old(missing) && h !in todo ==> (h in missing <==> old(missing)[h] != {code})
        invariant forall h :: h in missing && h !in todo ==> missing[h] == old(missing)[h] - {code}
        invariant unlocked == set h | h in old(missing) && h !in todo && old(missing)[h] == {code}
      {
        var h :| h in todo;
        todo := todo - {h};
        var left := missing[h] - {code};
        if left == {} {
          assert old(missing)[h] == {code};
          unlocked := unlocked + {h};
          missing := missing - {h};
        } else {
          missing := missing[h := left];
        }
      }
    }
  }

  /** Every hash from `h` down to `low`, both included, is buffered. */
  ghost predicate Buffered(blocks: map<Hash, Header>, h: Hash, low: Hash)
  {
    h in blocks && (h == low || (h.HashOf? && Buffered(blocks, h.header.parent, low)))
  }

  /** `low` is the bottom of the buffered path down from `h`: its own parent is not buffered. */
  ghost predicate Lowest(blocks: map<Hash, Header>, h: Hash, low: Header)
  {
    Buffered(blocks, h, HashOf(low)) && low.parent !in blocks
  }

  lemma {:induction false} BufferedExtends(blocks: map<Hash, Header>, h: Hash, low: Hash)
    requires Buffered(blocks, h, low) && low.HashOf? && low.header.parent in blocks
    ensures Buffered(blocks, h, low.header.parent)
  {
    if h != low {
      BufferedExtends(blocks, h.header.parent, low);
    }
  }
}
