/**
 The in-memory block tree and its canonical number-to-hash index.
 */
module ChainStates {
  import opened Blocks

  /** How far below the finalized block canonical hashes are kept. */
  const BLOCK_HASH_WINDOW: nat := 256

  /** The value of the four collections behind the lock. */
  datatype ChainView = ChainView(
    canonical: map<nat, Hash>,
    blocks: map<Hash, Header>,
    byNumber: map<nat, set<Hash>>,
    witnesses: map<Hash, Witness>)

  ghost predicate Coherent(v: ChainView)
  {
    && (forall h :: h in v.blocks ==> h.HashOf? && v.blocks[h] == h.header)
    && (forall n, h :: n in v.byNumber && h in v.byNumber[n] ==> h in v.blocks && v.blocks[h].number == n)
    && (forall h :: h in v.blocks ==> v.blocks[h].number in v.byNumber && h in v.byNumber[v.blocks[h].number])
    && v.witnesses.Keys <= v.blocks.Keys
  }

  ghost predicate IsCanonical(canonical: map<nat, Hash>, hash: Hash)
  {
    exists n :: n in canonical && canonical[n] == hash
  }

  function Bucket(m: map<nat, set<Hash>>, n: nat): set<Hash> {
    if n in m then m[n] else {}
  }

  function Insert(v: ChainView, block: Header, wit: Option<Witness>): ChainView {
    v.(byNumber := v.byNumber[block.number := Bucket(v.byNumber, block.number) + {HashOf(block)}],
       blocks := v.blocks[HashOf(block) := block],
       witnesses := if wit.Some? then v.witnesses[HashOf(block) := wit.value] else v.witnesses)
  }

  function RemoveCanonical(canonical: map<nat, Hash>, number: nat, hash: Hash): map<nat, Hash> {
    if number in canonical && canonical[number] == hash then canonical - {number} else canonical
  }

  function From<T>(m: map<nat, T>, number: nat): map<nat, T> {
    map n | n in m && number <= n :: m[n]
  }

  function BlocksFrom(blocks: map<Hash, Header>, number: nat): map<Hash, Header> {
    map h | h in blocks && number <= blocks[h].number :: blocks[h]
  }

  function WitnessesFor(witnesses: map<Hash, Witness>, blocks: map<Hash, Header>): map<Hash, Witness> {
    map h | h in witnesses && h in blocks :: witnesses[h]
  }

  function WindowStart(number: nat): nat {
    if number < BLOCK_HASH_WINDOW then 0 else number - BLOCK_HASH_WINDOW
  }

  /** Everything below the finalized block goes, and every canonical hash below its window. */
  function Prune(v: ChainView, finalized: Hash): ChainView {
    if finalized !in v.blocks then v
    else
      var f := v.blocks[finalized].number;
      var kept := BlocksFrom(v.blocks, f);
      ChainView(From(v.canonical, WindowStart(f)), kept, From(v.byNumber, f),
                WitnessesFor(v.witnesses, kept))
  }

  /** What a block-hash query answers, starting at block `at`. */
  function Lookup(v: ChainView, at: NumHash, n: nat): Option<Hash>
    decreases at.hash
  {
    if at.hash.HashOf? && at.hash in v.blocks then
      if at.hash.header.number == n then Some(at.hash)
      else Lookup(v, at.hash.header.ParentNumHash(), n)
    else if n <= at.number && at.number in v.canonical && v.canonical[at.number] == at.hash && n in v.canonical then
      Some(v.canonical[n])
    else None
  }

  lemma InsertCoherent(v: ChainView, block: Header, wit: Option<Witness>)
    requires Coherent(v)
    ensures Coherent(Insert(v, block, wit))
  {
    var w := Insert(v, block, wit);
    forall n, h | n in w.byNumber && h in w.byNumber[n]
      ensures h in w.blocks && w.blocks[h].number == n
    {
      if h != HashOf(block) || n != block.number {
        assert n in v.byNumber && h in v.byNumber[n];
      }
    }
  }

  lemma PruneCoherent(v: ChainView, finalized: Hash)
    requires Coherent(v)
    ensures Coherent(Prune(v, finalized))
  {
  }

  lemma BucketPopped(v: ChainView, low: nat, first: nat)
    requires Coherent(v) && first in From(v.byNumber, low)
    requires forall m :: m in From(v.byNumber, low) ==> first <= m
    ensures From(v.byNumber, low) - {first} == From(v.byNumber, first + 1)
    ensures BlocksFrom(v.blocks, low) - v.byNumber[first] == BlocksFrom(v.blocks, first + 1)
    ensures WitnessesFor(v.witnesses, BlocksFrom(v.blocks, low)) - v.byNumber[first] ==
            WitnessesFor(v.witnesses, BlocksFrom(v.blocks, first + 1))
  {
    forall h | h in BlocksFrom(v.blocks, low)
      ensures h in v.byNumber[first] <==> h !in BlocksFrom(v.blocks, first + 1)
    {
      assert v.blocks[h].number in From(v.byNumber, low);
    }
  }

  lemma BucketsExhausted(v: ChainView, low: nat, number: nat)
    requires Coherent(v) && low <= number
    requires forall n :: n in From(v.byNumber, low) ==> number <= n
    ensures From(v.byNumber, low) == From(v.byNumber, number)
    ensures BlocksFrom(v.blocks, low) == BlocksFrom(v.blocks, number)
  {
    forall h | h in BlocksFrom(v.blocks, low)
      ensures h in BlocksFrom(v.blocks, number)
    {
      assert v.blocks[h].number in From(v.byNumber, low);
    }
  }

  /** Every bucket below `low` is gone, with its blocks and witnesses. */
  ghost predicate CutBelow(v: ChainView, low: nat, w: ChainView)
  {
    && w.byNumber == From(v.byNumber, low) && w.blocks == BlocksFrom(v.blocks, low)
    && w.witnesses == WitnessesFor(v.witnesses, w.blocks)
  }

  ghost function WithoutBucket(w: ChainView, number: nat): ChainView
    requires number in w.byNumber
  {
    var hashes := w.byNumber[number];
    w.(byNumber := w.byNumber - {number}, blocks := w.blocks - hashes, witnesses := w.witnesses - hashes)
  }

  lemma CutNothing(v: ChainView)
    requires Coherent(v)
    ensures CutBelow(v, 0, v)
  {
  }

  lemma CutNext(v: ChainView, low: nat, w: ChainView, first: nat)
    requires Coherent(v) && CutBelow(v, low, w) && first in w.byNumber && forall m :: m in w.byNumber ==> first <= m
    ensures CutBelow(v, first + 1, WithoutBucket(w, first))
  {
    BucketPopped(v, low, first);
  }

  lemma CutEnough(v: ChainView, low: nat, w: ChainView, number: nat)
    requires Coherent(v) && CutBelow(v, low, w) && low <= number && forall n :: n in w.byNumber ==> number <= n
    ensures CutBelow(v, number, w)
  {
    BucketsExhausted(v, low, number);
  }

  /** Of `v`, the blocks from a height on are left, with their witnesses, and the hashes from 256 below it on. */
  ghost predicate KeptFrom(v: ChainView, number: nat, w: ChainView)
  {
    && (forall h :: h in w.blocks <==> h in v.blocks && number <= v.blocks[h].number)
    && (forall h :: h in w.blocks ==> w.blocks[h] == v.blocks[h])
    && (forall h :: h in w.witnesses <==> h in v.witnesses && h in w.blocks)
    && (forall h :: h in w.witnesses ==> w.witnesses[h] == v.witnesses[h])
    && (forall n: nat :: n in w.canonical <==> n in v.canonical && number <= n + 256)
    && (forall n: nat :: n in w.canonical ==> w.canonical[n] == v.canonical[n])
  }

  class ChainState {
    var canonical: map<nat, Hash>
    var blocks: map<Hash, Header>
    var byNumber: map<nat, set<Hash>>
    var witnesses: map<Hash, Witness>

    ghost function View(): ChainView
      reads this
    {
      ChainView(canonical, blocks, byNumber, witnesses)
    }

    ghost predicate Valid()
      reads this
    {
      Coherent(View())
    }

    /** The state a node starts from: the genesis block, canonical at zero. */
    constructor (genesis: Header)
      ensures Valid()
      ensures View() == ChainView(map[0 := HashOf(genesis)], map[HashOf(genesis) := genesis],
                                  map[genesis.number := {HashOf(genesis)}], map[])
    {
      canonical := map[0 := HashOf(genesis)];
      blocks := map[HashOf(genesis) := genesis];
      byNumber := map[genesis.number := {HashOf(genesis)}];
      witnesses := map[];
    }

    method IsHashCanonical(hash: Hash) returns (r: bool)
      ensures r <==> IsCanonical(canonical, hash)
    {
      r := hash in canonical.Values;
    }

    method BlockHash(parent: NumHash, number: nat) returns (r: Option<Hash>)
      requires Valid()
      ensures r == Lookup(View(), parent, number)
    {
      var ancestor := parent;
      while ancestor.hash in blocks
        invariant Lookup(View(), ancestor, number) == Lookup(View(), parent, number)
        decreases ancestor.hash
      {
        var block := blocks[ancestor.hash];
        if block.number == number {
          return Some(HashOf(block));
        }
        ancestor := block.ParentNumHash();
      }
      if number <= ancestor.number && ancestor.number in canonical && canonical[ancestor.number] == ancestor.hash {
        return if number in canonical then Some(canonical[number]) else None;
      }
      return None;
    }

    method InsertCanonicalHash(number: nat, hash: Hash)
      requires Valid()
      modifies this
      ensures Valid()
      ensures View() == old(View()).(canonical := old(canonical)[number := hash])
    {
      canonical := canonical[number := hash];
    }

    method RemoveCanonicalHash(number: nat, hash: Hash)
      requires Valid()
      modifies this
      ensures Valid()
      ensures View() == old(View()).(canonical := RemoveCanonical(old(canonical), number, hash))
      ensures number in canonical ==> number in old(canonical) && canonical[number] == old(canonical)[number] != hash
      ensures number in old(canonical) && old(canonical)[number] != hash ==> canonical == old(canonical)
    {
      if number in canonical {
        if canonical[number] == hash {
          canonical := canonical - {number};
        }
      }
    }

    method InsertBlock(block: Header, wit: Option<Witness>)
      requires Valid()
      modifies this
      ensures Valid()
      ensures View() == Insert(old(View()), block, wit)
      ensures blocks == old(blocks)[HashOf(block) := block] && canonical == old(canonical)
      ensures if wit.Some? then witnesses == old(witnesses)[HashOf(block) := wit.value]
              else witnesses == old(witnesses)
    {
      InsertCoherent(View(), block, wit);
      byNumber := byNumber[block.number := Bucket(byNumber, block.number) + {HashOf(block)}];
      blocks := blocks[HashOf(block) := block];
      if wit.Some? {
        witnesses := witnesses[HashOf(block) := wit.value];
      }
    }

    /** Pops whole number buckets off the front until the finalized height is reached. */
    method RemoveBlocksOnFinalized(finalized: Hash)
      requires Valid()
      modifies this
      ensures Valid()
      ensures View() == Prune(old(View()), finalized)
      ensures finalized !in old(blocks) ==> View() == old(View())
      ensures finalized in old(blocks) ==> KeptFrom(old(View()), old(blocks)[finalized].number, View())
    {
      PruneCoherent(View(), finalized);
      if finalized in blocks {
        var finalizedNumber := blocks[finalized].number;
        RemoveBlocksBelow(finalizedNumber);
        RemoveCanonicalBelow(WindowStart(finalizedNumber));
      }
    }

    method RemoveBlocksBelow(number: nat)
      requires Valid()
      modifies this`byNumber, this`blocks, this`witnesses
      ensures blocks == BlocksFrom(old(blocks), number)
      ensures witnesses == WitnessesFor(old(witnesses), blocks)
      ensures byNumber == From(old(byNumber), number)
    {
      ghost var start := View();
      ghost var low: nat := 0;
      CutNothing(start);
      while exists n :: n in byNumber && n < number
        invariant low <= number && CutBelow(start, low, View())
        decreases |byNumber|
      {
        low := RemoveFirstBucket(number, start, low);
      }
      CutEnough(start, low, View(), number);
    }

    method RemoveFirstBucket(number: nat, ghost start: ChainView, ghost low: nat) returns (ghost low': nat)
      requires Coherent(start) && CutBelow(start, low, View()) && exists n :: n in byNumber && n < number
      modifies this`byNumber, this`blocks, this`witnesses
      ensures low' <= number && CutBelow(start, low', View()) && |byNumber| < |old(byNumber)|
    {
      var first := FirstKey(byNumber.Keys);
      CutNext(start, low, View(), first);
      RemoveBucket(first);
      low' := first + 1;
    }

    method RemoveBucket(number: nat)
      requires number in byNumber
      modifies this`byNumber, this`blocks, this`witnesses
      ensures View() == WithoutBucket(old(View()), number) && |byNumber| < |old(byNumber)|
    {
      var hashes := byNumber[number];
      byNumber := byNumber - {number};
      blocks := blocks - hashes;
      witnesses := witnesses - hashes;
    }

    method RemoveCanonicalBelow(number: nat)
      modifies this`canonical
      ensures canonical == From(old(canonical), number)
    {
      while exists n :: n in canonical && n < number
        invariant forall n :: n in canonical ==> n in old(canonical) && canonical[n] == old(canonical)[n]
        invariant forall n :: n in old(canonical) && number <= n ==> n in canonical
        decreases |canonical|
      {
        var first := FirstKey(canonical.Keys);
        canonical := canonical - {first};
      }
    }
  }
}
