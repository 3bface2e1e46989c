/**
 Block identities shared by every component.

 A block hash is modelled symbolically: it is either opaque (32 bytes nobody has a preimage
 for, such as the zero hash) or the hash of one header. Two facts the node relies on then hold
 by construction: hashes are collision free, and no header is its own ancestor.
 A block's body is committed to by its header, so a header stands for the whole block.
 */
module Blocks {

  datatype Option<+T> = None | Some(value: T)

  datatype Hash = Opaque(id: nat) | HashOf(header: Header)

  /** `pow` says whether the header's difficulty is non-zero; `salt` stands for all other fields. */
  datatype Header = Header(parent: Hash, number: nat, pow: bool, salt: nat) {

    /** Number and hash of the parent; the number saturates at zero. */
    function ParentNumHash(): NumHash {
      NumHash(if number == 0 then 0 else number - 1, parent)
    }

    function ToNumHash(): NumHash {
      NumHash(number, HashOf(this))
    }
  }

  datatype NumHash = NumHash(number: nat, hash: Hash)

  const ZERO: Hash := Opaque(0)

  /** Hash of a contract's bytecode. */
  type Code = nat

  /** An execution witness, of which the engine only ever inspects the bytecode hashes. */
  datatype Witness = Witness(codes: set<Code>, salt: nat)

  /** Block numbers count down by one along the whole ancestry, to a genesis block at zero. */
  ghost predicate Numbered(h: Hash)
  {
    && h.HashOf?
    && if h.header.number == 0 then h.header.parent == ZERO
       else Numbered(h.header.parent) && h.header.parent.header.number + 1 == h.header.number
  }

  /** The reference answer to every ancestry question: a plain walk over the full chain. */
  ghost function AncestorAt(h: Hash, n: nat): Option<Hash>
  {
    if h.Opaque? then None
    else if h.header.number == n then Some(h)
    else AncestorAt(h.header.parent, n)
  }

  ghost predicate AncestorOrSelf(a: Hash, h: Hash)
  {
    a == h || (h.HashOf? && AncestorOrSelf(a, h.header.parent))
  }

  /** Number of headers on the path to an opaque hash. */
  ghost function Depth(h: Hash): nat
  {
    if h.Opaque? then 0 else 1 + Depth(h.header.parent)
  }

  lemma {:induction false} DepthOfNumbered(h: Hash)
    requires Numbered(h)
    ensures Depth(h) == h.header.number + 1
  {
    if h.header.number > 0 {
      DepthOfNumbered(h.header.parent);
    }
  }

  lemma {:induction false} AncestorDepth(a: Hash, h: Hash)
    requires AncestorOrSelf(a, h)
    ensures Depth(a) <= Depth(h)
    ensures Depth(a) == Depth(h) ==> a == h
  {
    if a != h {
      AncestorDepth(a, h.header.parent);
    }
  }

  lemma {:induction false} AncestorTransitive(a: Hash, b: Hash, c: Hash)
    requires AncestorOrSelf(a, b) && AncestorOrSelf(b, c)
    ensures AncestorOrSelf(a, c)
  {
    if b != c {
      AncestorTransitive(a, b, c.header.parent);
    }
  }

  /** Two ancestors of the same block are comparable. */
  lemma {:induction false} AncestorsComparable(a: Hash, b: Hash, h: Hash)
    requires AncestorOrSelf(a, h) && AncestorOrSelf(b, h) && Depth(a) <= Depth(b)
    ensures AncestorOrSelf(a, b)
  {
    AncestorDepth(a, h);
    AncestorDepth(b, h);
    if b != h && a != h {
      AncestorsComparable(a, b, h.header.parent);
    }
  }

  /** A numbered block has exactly one ancestor at each height up to its own, and none above. */
  lemma {:induction false} AncestorAtSpec(h: Hash, n: nat)
    requires Numbered(h)
    ensures AncestorAt(h, n).Some? <==> n <= h.header.number
    ensures n <= h.header.number ==>
              var a := AncestorAt(h, n).value;
              Numbered(a) && a.header.number == n && AncestorOrSelf(a, h)
  {
    if h.header.number == n {
    } else if h.header.number == 0 {
      assert AncestorAt(ZERO, n) == None;
    } else {
      AncestorAtSpec(h.header.parent, n);
    }
  }

  lemma {:induction false} AncestorAtCompose(h: Hash, n: nat, m: nat)
    requires Numbered(h) && m <= n <= h.header.number
    ensures AncestorAt(h, n).Some? && AncestorAt(AncestorAt(h, n).value, m) == AncestorAt(h, m)
  {
    if h.header.number > n {
      AncestorAtCompose(h.header.parent, n, m);
    }
  }

  lemma {:induction false} AncestorOrSelfIsAncestorAt(a: Hash, h: Hash)
    requires Numbered(h) && a.HashOf?
    ensures AncestorOrSelf(a, h) <==> AncestorAt(h, a.header.number) == Some(a)
    ensures AncestorOrSelf(a, h) ==> Numbered(a) && a.header.number <= h.header.number
  {
    AncestorAtSpec(h, a.header.number);
    if AncestorOrSelf(a, h) && a != h {
      if h.header.number == 0 {
        assert !AncestorOrSelf(a, ZERO);
      } else {
        AncestorOrSelfIsAncestorAt(a, h.header.parent);
      }
    }
  }

  /** The first key of an ordered map. */
  method FirstKey(keys: set<nat>) returns (first: nat)
    requires keys != {}
    ensures first in keys && forall m :: m in keys ==> first <= m
  {
    ghost var k :| k in keys;
    first := 0;
    while first !in keys
      invariant forall m :: m in keys ==> first <= m
      decreases k - first
    {
      first := first + 1;
    }
  }
}
