/**
 When a branch removal returns blocks in ascending number order, as its documentation says it
 always does, and a buffer for which it never does.
 */
module RemovalOrder {
  import opened Blocks
  import opened BlockBuffers

  ghost predicate Ascending(out: seq<Hash>)
  {
    && (forall i :: 0 <= i < |out| ==> out[i].HashOf?)
    && (forall i, j :: 0 <= i < j < |out| ==> out[i].header.number <= out[j].header.number)
  }

  /** Blocks of one number, followed by an ascending run of blocks none of which is lower. */
  lemma LevelThenHigher(level: seq<Hash>, later: seq<Hash>)
    requires forall x :: x in level ==> x.HashOf?
    requires forall x, y :: x in level && y in level ==> x.header.number == y.header.number
    requires Ascending(later) && forall x, y :: x in level && y in later ==> x.header.number <= y.header.number
    ensures Ascending(level + later)
  {
    var out := level + later;
    forall i | 0 <= i < |out|
      ensures out[i].HashOf? && (i < |level| ==> out[i] in level) && (|level| <= i ==> out[i] in later)
    {
      if i < |level| {
        assert out[i] == level[i];
      } else {
        assert out[i] == later[i - |level|];
      }
    }
    forall i, j | 0 <= i < j < |out|
      ensures out[i].header.number <= out[j].header.number
    {
      if i >= |level| {
        assert out[i] == later[i - |level|] && out[j] == later[j - |level|];
      }
    }
  }

  // ---------- reachability ----------

  /** Every link goes up by one in number. */
  ghost predicate Stepwise(children: map<Hash, set<Hash>>)
  {
    && LinksOk(children)
    && forall c :: Link(children, c) ==>
                     c.header.parent.HashOf? && c.header.number == c.header.parent.header.number + 1
  }

  ghost predicate Fewer(after: map<Hash, set<Hash>>, children: map<Hash, set<Hash>>)
  {
    forall p :: p in after ==> p in children && after[p] == children[p]
  }

  /** `x` is linked strictly below one of the roots. */
  ghost predicate Under(children: map<Hash, set<Hash>>, roots: set<Hash>, x: Hash)
  {
    Link(children, x) && BelowAny(children, roots, x.header.parent)
  }

  lemma {:induction false} BelowInMore(after: map<Hash, set<Hash>>, children: map<Hash, set<Hash>>, roots: set<Hash>,
                                       k: Hash)
    requires Fewer(after, children) && BelowAny(after, roots, k)
    ensures BelowAny(children, roots, k)
  {
    if k !in roots {
      BelowInMore(after, children, roots, k.header.parent);
    }
  }

  /** Expanding a hash replaces it by its children and takes its own links away; nothing else changes. */
  lemma {:induction false} BelowExpanded(children: map<Hash, set<Hash>>, rest: set<Hash>, p: Hash, k: Hash)
    requires p in children && k != p && LinksOk(children)
    ensures BelowAny(children, rest + {p}, k) <==> BelowAny(children - {p}, rest + children[p], k)
  {
    if k !in rest && k !in children[p] && k.HashOf? && k.header.parent != p {
      BelowExpanded(children, rest, p, k.header.parent);
    }
  }

  lemma UnderExpanded(children: map<Hash, set<Hash>>, rest: set<Hash>, p: Hash, x: Hash)
    requires p in children && LinksOk(children)
    ensures Under(children, rest + {p}, x) <==> x in children[p] || Under(children - {p}, rest + children[p], x)
  {
    if Link(children, x) && x.header.parent != p {
      BelowExpanded(children, rest, p, x.header.parent);
    }
  }

  lemma MembersOf(a: seq<Hash>, b: seq<Hash>)
    ensures Members(a + b) == Members(a) + Members(b)
  {
  }

  /** What comes out is exactly what is ready and linked below the stack. */
  lemma {:induction false} DepthFirstMembers(children: map<Hash, set<Hash>>, stack: seq<Hash>, ready: set<Hash>,
                                             order: Order, x: Hash)
    requires LinksOk(children) && Orders(order, children)
    ensures x in DepthFirst(children, stack, ready, order) <==> x in ready && Under(children, Members(stack), x)
    decreases children.Keys, |stack|
  {
    if stack == [] {
      assert Members(stack) == {};
      NothingBelowNone(children, x);
    } else {
      var p, rest := stack[|stack| - 1], stack[..|stack| - 1];
      assert stack == rest + [p] && Members([p]) == {p};
      MembersOf(rest, [p]);
      if p !in children {
        DepthFirstMembers(children, rest, ready, order, x);
        LeafAdds(children, Members(rest), p, x);
      } else {
        assert Members(order(p)) == children[p];
        MembersOf(rest, order(p));
        DepthFirstMembers(children - {p}, rest + order(p), ready, order, x);
        UnderExpanded(children, Members(rest), p, x);
        KeptSpec(order(p), ready);
      }
    }
  }

  lemma {:induction false} NothingBelowNone(children: map<Hash, set<Hash>>, x: Hash)
    ensures !BelowAny(children, {}, x) && !Under(children, {}, x)
  {
    if x.HashOf? {
      NothingBelowNone(children, x.header.parent);
    }
  }

  lemma {:induction false} LeafBelow(children: map<Hash, set<Hash>>, rest: set<Hash>, p: Hash, k: Hash)
    requires p !in children && k != p
    ensures BelowAny(children, rest + {p}, k) <==> BelowAny(children, rest, k)
  {
    if k !in rest && Link(children, k) {
      LeafBelow(children, rest, p, k.header.parent);
    }
  }

  lemma LeafAdds(children: map<Hash, set<Hash>>, rest: set<Hash>, p: Hash, x: Hash)
    requires p !in children
    ensures Under(children, rest + {p}, x) <==> Under(children, rest, x)
  {
    if Link(children, x) {
      LeafBelow(children, rest, p, x.header.parent);
    }
  }

  /** The links that are left once everything below the roots has been expanded. */
  ghost function Cut(children: map<Hash, set<Hash>>, roots: set<Hash>): map<Hash, set<Hash>>
  {
    map k | k in children && !BelowAny(children, roots, k) :: children[k]
  }

  lemma CutExpanded(children: map<Hash, set<Hash>>, rest: set<Hash>, p: Hash)
    requires LinksOk(children)
    ensures p in children ==> Cut(children - {p}, rest + children[p]) == Cut(children, rest + {p})
    ensures p !in children ==> Cut(children, rest) == Cut(children, rest + {p})
  {
    forall k | k in children && k != p
      ensures p in children ==> (BelowAny(children, rest + {p}, k) <==> BelowAny(children - {p}, rest + children[p], k))
      ensures p !in children ==> (BelowAny(children, rest + {p}, k) <==> BelowAny(children, rest, k))
    {
      if p in children {
        BelowExpanded(children, rest, p, k);
      } else {
        LeafBelow(children, rest, p, k);
      }
    }
  }

  lemma CutNothing(children: map<Hash, set<Hash>>)
    ensures Cut(children, {}) == children
  {
    forall k
      ensures !BelowAny(children, {}, k)
    {
      NothingBelowNone(children, k);
    }
  }

  lemma CutOrders(order: Order, children: map<Hash, set<Hash>>, roots: set<Hash>)
    requires Orders(order, children) && LinksOk(children)
    ensures Orders(order, Cut(children, roots)) && LinksOk(Cut(children, roots))
    ensures Fewer(Cut(children, roots), children)
  {
  }

  lemma PushedBack(children: map<Hash, set<Hash>>, rest: seq<Hash>, p: Hash, ready: set<Hash>, order: Order)
    ensures DepthFirst(children, rest + [p], ready, order) ==
            if p in children then Kept(order(p), ready) + DepthFirst(children - {p}, rest + order(p), ready, order)
            else DepthFirst(children, rest, ready, order)
  {
    assert (rest + [p])[..|rest|] == rest;
  }

  /** The top part of the stack comes out whole before anything of the rest. */
  ghost predicate Drained(children: map<Hash, set<Hash>>, rest: seq<Hash>, top: seq<Hash>, ready: set<Hash>,
                          order: Order)
  {
    DepthFirst(children, rest + top, ready, order) ==
    DepthFirst(children, top, ready, order) + DepthFirst(Cut(children, Members(top)), rest, ready, order)
  }

  lemma DrainedLeaf(children: map<Hash, set<Hash>>, rest: seq<Hash>, below: seq<Hash>, p: Hash, ready: set<Hash>,
                    order: Order)
    requires LinksOk(children) && p !in children && Drained(children, rest, below, ready, order)
    ensures Drained(children, rest, below + [p], ready, order)
  {
    Assoc(rest, below, [p]);
    PushedBack(children, rest + below, p, ready, order);
    PushedBack(children, below, p, ready, order);
    CutPushed(children, below, p, [p]);
  }

  lemma DrainedMore(children: map<Hash, set<Hash>>, rest: seq<Hash>, below: seq<Hash>, p: Hash, ready: set<Hash>,
                    order: Order)
    requires LinksOk(children) && Orders(order, children) && p in children
    requires Drained(children - {p}, rest, below + order(p), ready, order)
    ensures Drained(children, rest, below + [p], ready, order)
  {
    Assoc(rest, below, [p]);
    Assoc(rest, below, order(p));
    PushedBack(children, rest + below, p, ready, order);
    PushedBack(children, below, p, ready, order);
    OrderMembers(order, children, p);
    CutPushed(children, below, p, order(p));
    Assoc(Kept(order(p), ready), DepthFirst(children - {p}, below + order(p), ready, order),
          DepthFirst(Cut(children, Members(below + [p])), rest, ready, order));
  }

  lemma CutPushed(children: map<Hash, set<Hash>>, below: seq<Hash>, p: Hash, q: seq<Hash>)
    requires LinksOk(children) && (p in children ==> Members(q) == children[p])
    ensures if p in children then Cut(children - {p}, Members(below + q)) == Cut(children, Members(below + [p]))
            else Cut(children, Members(below)) == Cut(children, Members(below + [p]))
  {
    MembersOf(below, [p]);
    MembersOf(below, q);
    Single(p);
    CutExpanded(children, Members(below), p);
  }

  lemma {:induction false} Drains(children: map<Hash, set<Hash>>, rest: seq<Hash>, top: seq<Hash>, ready: set<Hash>,
                                  order: Order)
    requires LinksOk(children) && Orders(order, children)
    ensures Drained(children, rest, top, ready, order)
    decreases children.Keys, |top|
  {
    if top == [] {
      assert Members(top) == {} && rest + top == rest;
      CutNothing(children);
    } else {
      var p, below := top[|top| - 1], top[..|top| - 1];
      assert top == below + [p];
      if p !in children {
        Drains(children, rest, below, ready, order);
        DrainedLeaf(children, rest, below, p, ready, order);
      } else {
        Drains(children - {p}, rest, below + order(p), ready, order);
        DrainedMore(children, rest, below, p, ready, order);
      }
    }
  }

  lemma Assoc(a: seq<Hash>, b: seq<Hash>, c: seq<Hash>)
    ensures (a + b) + c == a + (b + c)
  {
  }

  lemma Single(p: Hash)
    ensures Members([p]) == {p} && [] + [p] == [p]
  {
  }

  lemma OrderMembers(order: Order, children: map<Hash, set<Hash>>, p: Hash)
    requires Orders(order, children) && p in children
    ensures Members(order(p)) == children[p] && [] + order(p) == order(p) && Distinct(order(p))
  {
  }

  // ---------- when the numbers ascend ----------

  /** Ready blocks strictly below different hashes of a set all have the same number. */
  ghost predicate Even(children: map<Hash, set<Hash>>, siblings: set<Hash>, ready: set<Hash>)
  {
    forall c, d, x, y :: c in siblings && d in siblings && c != d && Apart(children, ready, c, d, x, y) ==>
                           x.header.number == y.header.number
  }

  /** `x` and `y` are ready, one strictly below `c` and the other strictly below `d`. */
  ghost predicate Apart(children: map<Hash, set<Hash>>, ready: set<Hash>, c: Hash, d: Hash, x: Hash, y: Hash)
  {
    x in ready && y in ready && Under(children, {c}, x) && Under(children, {d}, y)
  }

  /**
   The ready ones among siblings have the same number, nothing ready below the siblings is lower, and
   what is ready below different ones is even.
   */
  ghost predicate Orderly(children: map<Hash, set<Hash>>, siblings: set<Hash>, ready: set<Hash>)
  {
    && Even(children, siblings, ready)
    && (forall k, l :: k in siblings && l in siblings && k in ready && l in ready ==> SameNumber(k, l))
    && (forall k, x :: k in siblings && k in ready && x in ready && Under(children, siblings, x) ==> NotLower(k, x))
  }

  predicate SameNumber(k: Hash, l: Hash)
  {
    k.HashOf? && l.HashOf? ==> k.header.number == l.header.number
  }

  predicate NotLower(k: Hash, x: Hash)
  {
    k.HashOf? && x.HashOf? ==> k.header.number <= x.header.number
  }

  /** This holds of the listed children of every hash at or below the roots. */
  ghost predicate Level(children: map<Hash, set<Hash>>, roots: set<Hash>, ready: set<Hash>)
  {
    forall p :: p in children && BelowAny(children, roots, p) ==> Orderly(children, children[p], ready)
  }

  lemma EvenInFewer(after: map<Hash, set<Hash>>, children: map<Hash, set<Hash>>, siblings: set<Hash>, ready: set<Hash>)
    requires Fewer(after, children) && Even(children, siblings, ready)
    ensures Even(after, siblings, ready)
  {
    forall c, d, x, y | c in siblings && d in siblings && c != d && Apart(after, ready, c, d, x, y)
      ensures x.header.number == y.header.number
    {
      BelowInMore(after, children, {c}, x.header.parent);
      BelowInMore(after, children, {d}, y.header.parent);
      assert Apart(children, ready, c, d, x, y);
    }
  }

  lemma OrderlyInFewer(after: map<Hash, set<Hash>>, children: map<Hash, set<Hash>>, siblings: set<Hash>,
                       ready: set<Hash>)
    requires Fewer(after, children) && Orderly(children, siblings, ready)
    ensures Orderly(after, siblings, ready)
  {
    EvenInFewer(after, children, siblings, ready);
    forall x | Under(after, siblings, x)
      ensures Under(children, siblings, x)
    {
      BelowInMore(after, children, siblings, x.header.parent);
    }
  }

  lemma LevelInFewer(after: map<Hash, set<Hash>>, children: map<Hash, set<Hash>>, fewer: set<Hash>, roots: set<Hash>,
                     ready: set<Hash>)
    requires Fewer(after, children) && Level(children, roots, ready)
    requires forall r :: r in fewer ==> BelowAny(children, roots, r)
    ensures Level(after, fewer, ready)
  {
    forall p | p in after && BelowAny(after, fewer, p)
      ensures Orderly(after, after[p], ready)
    {
      BelowInMore(after, children, fewer, p);
      BelowThrough(children, fewer, roots, p);
      OrderlyInFewer(after, children, children[p], ready);
    }
  }

  lemma {:induction false} BelowThrough(children: map<Hash, set<Hash>>, mid: set<Hash>, roots: set<Hash>, k: Hash)
    requires BelowAny(children, mid, k) && forall r :: r in mid ==> BelowAny(children, roots, r)
    ensures BelowAny(children, roots, k)
  {
    if k !in mid {
      BelowThrough(children, mid, roots, k.header.parent);
    }
  }

  /** Two ascending runs whose members all have the same number, or of which one is empty, ascend together. */
  lemma EqualRunsJoin(a: seq<Hash>, b: seq<Hash>)
    requires Ascending(a) && Ascending(b)
    requires forall x, y :: x in a && y in b ==> x.header.number == y.header.number
    ensures Ascending(a + b)
  {
    var out := a + b;
    forall i, j | 0 <= i < j < |out|
      ensures out[i].HashOf? && out[j].HashOf? && out[i].header.number <= out[j].header.number
    {
      if i < |a| <= j {
        assert out[i] in a && out[j] in b;
      }
    }
  }

  /** Below even siblings, level all the way down, numbers ascend. */
  lemma {:induction false} EvenAscends(children: map<Hash, set<Hash>>, q: seq<Hash>, ready: set<Hash>, order: Order)
    requires LinksOk(children) && Orders(order, children) && Distinct(q)
    requires Even(children, Members(q), ready) && Level(children, Members(q), ready)
    ensures Ascending(DepthFirst(children, q, ready, order))
    decreases children.Keys, |q|
  {
    if q != [] {
      var rest, c := q[..|q| - 1], q[|q| - 1];
      LastIsNew(q);
      CutIsLevel(children, q, ready, order);
      EvenAscends(Cut(children, {c}), rest, ready, order);
      if c in children {
        ChildIsLevel(children, q, c, ready, order);
        OrderMembers(order, children, c);
        EvenAscends(children - {c}, order(c), ready, order);
        ListedAtRoot(children, q, c);
      }
      OneAscends(children, c, ready, order);
      JoinAscends(children, q, ready, order);
    }
  }

  lemma ListedAtRoot(children: map<Hash, set<Hash>>, q: seq<Hash>, c: Hash)
    requires c in q
    ensures BelowAny(children, Members(q), c)
  {
  }

  /** Popping a hash yields its ready children, of one number, and then only blocks that are not lower. */
  lemma OneAscends(children: map<Hash, set<Hash>>, c: Hash, ready: set<Hash>, order: Order)
    requires LinksOk(children) && Orders(order, children)
    requires c in children ==>
               Orderly(children, children[c], ready) && Ascending(DepthFirst(children - {c}, order(c), ready, order))
    ensures Ascending(DepthFirst(children, [c], ready, order))
  {
    Single(c);
    PushedBack(children, [], c, ready, order);
    if c in children {
      OrderMembers(order, children, c);
      KidsAreLevel(children, c, ready, order);
      LaterNotLower(children, c, ready, order);
      LevelThenHigher(Kept(order(c), ready), DepthFirst(children - {c}, order(c), ready, order));
    }
  }

  lemma KidsAreLevel(children: map<Hash, set<Hash>>, c: Hash, ready: set<Hash>, order: Order)
    requires LinksOk(children) && Orders(order, children) && c in children && Orderly(children, children[c], ready)
    ensures var kids := Kept(order(c), ready);
            && (forall x :: x in kids ==> x.HashOf? && x in children[c] && x in ready)
            && (forall x, y :: x in kids && y in kids ==> x.header.number == y.header.number)
  {
    var kids := Kept(order(c), ready);
    KeptSpec(order(c), ready);
    assert forall x :: x in kids ==> x in order(c) && x in ready && x in children[c];
    forall x, y | x in kids && y in kids
      ensures x.HashOf? && y.HashOf? && x.header.number == y.header.number
    {
      assert SameNumber(x, y);
    }
  }

  lemma LaterAreBelow(children: map<Hash, set<Hash>>, c: Hash, ready: set<Hash>, order: Order)
    requires LinksOk(children) && Orders(order, children) && c in children
    ensures forall y :: y in DepthFirst(children - {c}, order(c), ready, order) ==>
                          y in ready && y.HashOf? && Under(children, children[c], y)
  {
    OrderMembers(order, children, c);
    WithoutLinks(children, c, order);
    forall y | y in DepthFirst(children - {c}, order(c), ready, order)
      ensures y in ready && y.HashOf? && Under(children, children[c], y)
    {
      DepthFirstMembers(children - {c}, order(c), ready, order, y);
      BelowInMore(children - {c}, children, children[c], y.header.parent);
    }
  }

  lemma LaterNotLower(children: map<Hash, set<Hash>>, c: Hash, ready: set<Hash>, order: Order)
    requires LinksOk(children) && Orders(order, children) && c in children && Orderly(children, children[c], ready)
    ensures forall x, y ::
              x in Kept(order(c), ready) && y in DepthFirst(children - {c}, order(c), ready, order) ==>
                x.HashOf? && y.HashOf? && x.header.number <= y.header.number
  {
    KidsAreLevel(children, c, ready, order);
    LaterAreBelow(children, c, ready, order);
    forall x, y | x in Kept(order(c), ready) && y in DepthFirst(children - {c}, order(c), ready, order)
      ensures x.HashOf? && y.HashOf? && x.header.number <= y.header.number
    {
      assert x in children[c] && NotLower(x, y);
    }
  }

  /** The last of the stack comes out whole before the others. */
  lemma LastDrains(children: map<Hash, set<Hash>>, q: seq<Hash>, ready: set<Hash>, order: Order)
    requires LinksOk(children) && Orders(order, children) && q != [] && Distinct(q)
    ensures var rest, c := q[..|q| - 1], q[|q| - 1];
            DepthFirst(children, q, ready, order) ==
            DepthFirst(children, [c], ready, order) + DepthFirst(Cut(children, {c}), rest, ready, order)
  {
    LastIsNew(q);
    Single(q[|q| - 1]);
    Drains(children, q[..|q| - 1], [q[|q| - 1]], ready, order);
  }

  lemma JoinAscends(children: map<Hash, set<Hash>>, q: seq<Hash>, ready: set<Hash>, order: Order)
    requires LinksOk(children) && Orders(order, children) && q != [] && Distinct(q)
    requires Even(children, Members(q), ready)
    requires Ascending(DepthFirst(children, [q[|q| - 1]], ready, order))
    requires Ascending(DepthFirst(Cut(children, {q[|q| - 1]}), q[..|q| - 1], ready, order))
    ensures Ascending(DepthFirst(children, q, ready, order))
  {
    LastDrains(children, q, ready, order);
    FirstAndLaterEven(children, q, ready, order);
    EqualRunsJoin(DepthFirst(children, [q[|q| - 1]], ready, order),
                  DepthFirst(Cut(children, {q[|q| - 1]}), q[..|q| - 1], ready, order));
  }

  lemma CutIsLevel(children: map<Hash, set<Hash>>, q: seq<Hash>, ready: set<Hash>, order: Order)
    requires LinksOk(children) && Orders(order, children) && q != []
    requires Even(children, Members(q), ready) && Level(children, Members(q), ready)
    ensures var rest, cut := q[..|q| - 1], Cut(children, {q[|q| - 1]});
            && LinksOk(cut) && Orders(order, cut) && cut.Keys <= children.Keys
            && Even(cut, Members(rest), ready) && Level(cut, Members(rest), ready)
  {
    var rest, cut := q[..|q| - 1], Cut(children, {q[|q| - 1]});
    CutOrders(order, children, {q[|q| - 1]});
    assert forall r :: r in Members(rest) ==> r in Members(q);
    EvenInFewer(cut, children, Members(q), ready);
    LevelInFewer(cut, children, Members(rest), Members(q), ready);
  }

  lemma WithoutLinks(children: map<Hash, set<Hash>>, c: Hash, order: Order)
    requires LinksOk(children) && Orders(order, children)
    ensures LinksOk(children - {c}) && Orders(order, children - {c}) && Fewer(children - {c}, children)
  {
  }

  lemma ChildIsLevel(children: map<Hash, set<Hash>>, q: seq<Hash>, c: Hash, ready: set<Hash>, order: Order)
    requires LinksOk(children) && Orders(order, children)
    requires c in q && c in children && Level(children, Members(q), ready)
    ensures LinksOk(children - {c}) && Orders(order, children - {c})
    ensures Even(children - {c}, children[c], ready) && Level(children - {c}, children[c], ready)
  {
    WithoutLinks(children, c, order);
    ListedAtRoot(children, q, c);
    OrderlyInFewer(children - {c}, children, children[c], ready);
    ChildrenBelow(children, Members(q), c);
    LevelInFewer(children - {c}, children, children[c], Members(q), ready);
  }

  lemma ChildrenBelow(children: map<Hash, set<Hash>>, roots: set<Hash>, c: Hash)
    requires LinksOk(children) && c in children && BelowAny(children, roots, c)
    ensures forall r :: r in children[c] ==> BelowAny(children, roots, r)
  {
    forall r | r in children[c]
      ensures BelowAny(children, roots, r)
    {
      assert Link(children, r);
    }
  }

  lemma LastIsNew(q: seq<Hash>)
    requires q != [] && Distinct(q)
    ensures var rest, c := q[..|q| - 1], q[|q| - 1];
            q == rest + [c] && c in q && c !in rest && forall d :: d in rest ==> d in q
  {
  }

  lemma FirstAndLaterEven(children: map<Hash, set<Hash>>, q: seq<Hash>, ready: set<Hash>, order: Order)
    requires LinksOk(children) && Orders(order, children) && q != [] && Distinct(q)
    requires Even(children, Members(q), ready)
    ensures var first := DepthFirst(children, [q[|q| - 1]], ready, order);
            var later := DepthFirst(Cut(children, {q[|q| - 1]}), q[..|q| - 1], ready, order);
            forall x, y :: x in first && y in later ==> x.HashOf? && y.HashOf? && x.header.number == y.header.number
  {
    var rest, c := q[..|q| - 1], q[|q| - 1];
    LastIsNew(q);
    Single(c);
    var first, later := DepthFirst(children, [c], ready, order), DepthFirst(Cut(children, {c}), rest, ready, order);
    forall x, y | x in first && y in later
      ensures x.HashOf? && y.HashOf? && x.header.number == y.header.number
    {
      DepthFirstMembers(children, [c], ready, order, x);
      var d := UnderOneOf(children, rest, c, ready, order, y);
      assert Apart(children, ready, c, d, x, y);
    }
  }

  lemma UnderOneOf(children: map<Hash, set<Hash>>, rest: seq<Hash>, c: Hash, ready: set<Hash>, order: Order, y: Hash)
      returns (d: Hash)
    requires LinksOk(children) && Orders(order, children) && y in DepthFirst(Cut(children, {c}), rest, ready, order)
    ensures y in ready && d in rest && Under(children, {d}, y)
  {
    CutOrders(order, children, {c});
    DepthFirstMembers(Cut(children, {c}), rest, ready, order, y);
    BelowInMore(Cut(children, {c}), children, Members(rest), y.header.parent);
    d := RootOf(children, Members(rest), y.header.parent);
  }

  lemma {:induction false} RootOf(children: map<Hash, set<Hash>>, roots: set<Hash>, k: Hash) returns (d: Hash)
    requires BelowAny(children, roots, k)
    ensures d in roots && BelowAny(children, {d}, k)
  {
    if k in roots {
      d := k;
    } else {
      d := RootOf(children, roots, k.header.parent);
    }
  }

  // ---------- and when they do not ----------

  ghost predicate Before(out: seq<Hash>, y: Hash, x: Hash)
  {
    exists i, j :: 0 <= i < j < |out| && out[i] == y && out[j] == x
  }

  lemma BeforeIn(a: seq<Hash>, out: seq<Hash>, y: Hash, x: Hash)
    requires Before(out, y, x)
    ensures Before(a + out, y, x)
  {
    var i, j :| 0 <= i < j < |out| && out[i] == y && out[j] == x;
    assert (a + out)[|a| + i] == y && (a + out)[|a| + j] == x;
  }

  lemma BeforeJoin(a: seq<Hash>, b: seq<Hash>, y: Hash, x: Hash)
    requires y in a && x in b
    ensures Before(a + b, y, x)
  {
    var i :| 0 <= i < |a| && a[i] == y;
    var j :| 0 <= j < |b| && b[j] == x;
    assert (a + b)[i] == y && (a + b)[|a| + j] == x;
  }

  /** Taking away the links of a hash that is not below `c` changes nothing below `c`. */
  lemma {:induction false} BelowKept(children: map<Hash, set<Hash>>, c: Hash, t: Hash, k: Hash)
    requires BelowAny(children, {c}, k) && !BelowAny(children, {c}, t)
    ensures BelowAny(children - {t}, {c}, k)
  {
    if k != c {
      BelowKept(children, c, t, k.header.parent);
    }
  }

  lemma UnderKept(children: map<Hash, set<Hash>>, c: Hash, t: Hash, x: Hash)
    requires Under(children, {c}, x) && !BelowAny(children, {c}, t)
    ensures Under(children - {t}, {c}, x)
  {
    BelowKept(children, c, t, x.header.parent);
  }

  /** No hash on the stack is at or below `c`. */
  ghost predicate Clear(children: map<Hash, set<Hash>>, stack: seq<Hash>, c: Hash)
  {
    forall t :: t in stack ==> !BelowAny(children, {c}, t)
  }

  lemma ClearNext(children: map<Hash, set<Hash>>, rest: seq<Hash>, t: Hash, q: seq<Hash>, c: Hash)
    requires LinksOk(children) && t in children && Lists(q, children[t]) && Clear(children, rest + [t], c)
    requires c !in children[t]
    ensures Clear(children - {t}, rest + q, c)
  {
    forall u | u in rest + q
      ensures !BelowAny(children - {t}, {c}, u)
    {
      if BelowAny(children - {t}, {c}, u) {
        BelowInMore(children - {t}, children, {c}, u);
      }
    }
  }

  /** The two hashes are listed under `p`, with `x` strictly below one and `y` strictly below the other. */
  ghost predicate Split(children: map<Hash, set<Hash>>, p: Hash, c: Hash, d: Hash, x: Hash, y: Hash)
  {
    && p in children && c in children[p] && d in children[p] && c != d
    && Under(children, {c}, x) && Under(children, {d}, y)
  }

  /** If `p` lists `d` last, then `y`, below `d`, comes out before `x`, below its sibling `c`. */
  lemma {:induction false} ComesBefore(children: map<Hash, set<Hash>>, stack: seq<Hash>, p: Hash, c: Hash, d: Hash,
                                       x: Hash, y: Hash, ready: set<Hash>, order: Order)
    requires LinksOk(children) && Orders(order, children) && Split(children, p, c, d, x, y) && x in ready && y in ready
    requires BelowAny(children, Members(stack), p) && Clear(children, stack, c) && Clear(children, stack, d)
    requires order(p) != [] && order(p)[|order(p)| - 1] == d
    ensures Before(DepthFirst(children, stack, ready, order), y, x)
    decreases children.Keys, |stack|
  {
    NonEmptyStack(children, stack, p);
    var t, rest := stack[|stack| - 1], stack[..|stack| - 1];
    assert stack == rest + [t] && Members([t]) == {t};
    MembersOf(rest, [t]);
    PushedBack(children, rest, t, ready, order);
    if t == p {
      SplitHere(children, rest, p, c, d, x, y, ready, order);
    } else if t !in children {
      LeafBelow(children, Members(rest), t, p);
      ComesBefore(children, rest, p, c, d, x, y, ready, order);
    } else {
      SplitStays(children, rest, t, p, c, d, x, y, order);
      ComesBefore(children - {t}, rest + order(t), p, c, d, x, y, ready, order);
      BeforeIn(Kept(order(t), ready), DepthFirst(children - {t}, rest + order(t), ready, order), y, x);
    }
  }

  /** The hash is listed under `p`, with `x` strictly below it. */
  ghost predicate Part(children: map<Hash, set<Hash>>, p: Hash, c: Hash, x: Hash)
  {
    p in children && c in children[p] && Under(children, {c}, x)
  }

  lemma StillReached(children: map<Hash, set<Hash>>, rest: seq<Hash>, t: Hash, p: Hash, order: Order)
    requires LinksOk(children) && Orders(order, children) && p in children && t in children && t != p
    requires BelowAny(children, Members(rest + [t]), p)
    ensures LinksOk(children - {t}) && Orders(order, children - {t})
    ensures BelowAny(children - {t}, Members(rest + order(t)), p)
  {
    MembersOf(rest, [t]);
    Single(t);
    BelowExpanded(children, Members(rest), t, p);
    OrderMembers(order, children, t);
    MembersOf(rest, order(t));
  }

  /** Expanding some other hash leaves a child of `p` and what is below it as they were. */
  lemma PartStays(children: map<Hash, set<Hash>>, rest: seq<Hash>, t: Hash, p: Hash, c: Hash, x: Hash, order: Order)
    requires LinksOk(children) && Orders(order, children) && Part(children, p, c, x) && t in children && t != p
    requires Clear(children, rest + [t], c)
    ensures Part(children - {t}, p, c, x) && Clear(children - {t}, rest + order(t), c)
  {
    assert c.header.parent == p && t in rest + [t];
    ClearNext(children, rest, t, order(t), c);
    UnderKept(children, c, t, x);
  }

  /** Expanding some other hash leaves the siblings and what is below them as they were. */
  lemma SplitStays(children: map<Hash, set<Hash>>, rest: seq<Hash>, t: Hash, p: Hash, c: Hash, d: Hash, x: Hash,
                   y: Hash, order: Order)
    requires LinksOk(children) && Orders(order, children) && Split(children, p, c, d, x, y) && t in children && t != p
    requires BelowAny(children, Members(rest + [t]), p)
    requires Clear(children, rest + [t], c) && Clear(children, rest + [t], d)
    ensures LinksOk(children - {t}) && Orders(order, children - {t}) && Split(children - {t}, p, c, d, x, y)
    ensures BelowAny(children - {t}, Members(rest + order(t)), p)
    ensures Clear(children - {t}, rest + order(t), c) && Clear(children - {t}, rest + order(t), d)
  {
    StillReached(children, rest, t, p, order);
    PartStays(children, rest, t, p, c, x, order);
    PartStays(children, rest, t, p, d, y, order);
  }

  /** A ready child comes out before everything ready below any of its siblings or itself. */
  lemma {:induction false} KidBefore(children: map<Hash, set<Hash>>, stack: seq<Hash>, p: Hash, k: Hash, c: Hash,
                                     x: Hash, ready: set<Hash>, order: Order)
    requires LinksOk(children) && Orders(order, children) && Part(children, p, c, x) && x in ready
    requires k in children[p] && k in ready && BelowAny(children, Members(stack), p) && Clear(children, stack, c)
    ensures Before(DepthFirst(children, stack, ready, order), k, x)
    decreases children.Keys, |stack|
  {
    NonEmptyStack(children, stack, p);
    var t, rest := stack[|stack| - 1], stack[..|stack| - 1];
    assert stack == rest + [t];
    PushedBack(children, rest, t, ready, order);
    if t == p {
      KidHere(children, rest, p, k, c, x, ready, order);
    } else if t !in children {
      MembersOf(rest, [t]);
      Single(t);
      LeafBelow(children, Members(rest), t, p);
      KidBefore(children, rest, p, k, c, x, ready, order);
    } else {
      StillReached(children, rest, t, p, order);
      PartStays(children, rest, t, p, c, x, order);
      KidBefore(children - {t}, rest + order(t), p, k, c, x, ready, order);
      BeforeIn(Kept(order(t), ready), DepthFirst(children - {t}, rest + order(t), ready, order), k, x);
    }
  }

  lemma NonEmptyStack(children: map<Hash, set<Hash>>, stack: seq<Hash>, p: Hash)
    requires BelowAny(children, Members(stack), p)
    ensures stack != []
  {
    if stack == [] {
      assert Members(stack) == {};
      NothingBelowNone(children, p);
    }
  }

  lemma KidHere(children: map<Hash, set<Hash>>, rest: seq<Hash>, p: Hash, k: Hash, c: Hash, x: Hash,
                ready: set<Hash>, order: Order)
    requires LinksOk(children) && Orders(order, children) && Part(children, p, c, x) && x in ready
    requires k in children[p] && k in ready && Clear(children, rest + [p], c)
    ensures Before(DepthFirst(children, rest + [p], ready, order), k, x)
  {
    PushedBack(children, rest, p, ready, order);
    KeptSpec(order(p), ready);
    ComesLater(children, rest, p, c, x, ready, order);
    BeforeJoin(Kept(order(p), ready), DepthFirst(children - {p}, rest + order(p), ready, order), k, x);
  }

  lemma ComesLater(children: map<Hash, set<Hash>>, rest: seq<Hash>, p: Hash, c: Hash, x: Hash, ready: set<Hash>,
                   order: Order)
    requires LinksOk(children) && Orders(order, children) && Part(children, p, c, x) && x in ready
    requires Clear(children, rest + [p], c)
    ensures x in DepthFirst(children - {p}, rest + order(p), ready, order)
  {
    var after, stack := children - {p}, rest + order(p);
    assert p in rest + [p] && c in stack;
    UnderKept(children, c, p, x);
    UnderMember(after, c, stack, x);
    DepthFirstMembers(after, stack, ready, order, x);
  }

  /** Ready siblings come out in the order they are listed in. */
  lemma {:induction false} SiblingsBefore(children: map<Hash, set<Hash>>, stack: seq<Hash>, p: Hash, l: Hash, k: Hash,
                                          ready: set<Hash>, order: Order)
    requires LinksOk(children) && Orders(order, children) && p in children && BelowAny(children, Members(stack), p)
    requires Before(order(p), l, k) && l in ready && k in ready
    ensures Before(DepthFirst(children, stack, ready, order), l, k)
    decreases children.Keys, |stack|
  {
    NonEmptyStack(children, stack, p);
    var t, rest := stack[|stack| - 1], stack[..|stack| - 1];
    assert stack == rest + [t];
    PushedBack(children, rest, t, ready, order);
    if t == p {
      KeptBefore(order(p), ready, l, k);
      BeforeMore(Kept(order(p), ready), DepthFirst(children - {p}, rest + order(p), ready, order), l, k);
    } else if t !in children {
      MembersOf(rest, [t]);
      Single(t);
      LeafBelow(children, Members(rest), t, p);
      SiblingsBefore(children, rest, p, l, k, ready, order);
    } else {
      StillReached(children, rest, t, p, order);
      SiblingsBefore(children - {t}, rest + order(t), p, l, k, ready, order);
      BeforeIn(Kept(order(t), ready), DepthFirst(children - {t}, rest + order(t), ready, order), l, k);
    }
  }

  lemma BeforeMore(out: seq<Hash>, b: seq<Hash>, y: Hash, x: Hash)
    requires Before(out, y, x)
    ensures Before(out + b, y, x)
  {
    var i, j :| 0 <= i < j < |out| && out[i] == y && out[j] == x;
    assert (out + b)[i] == y && (out + b)[j] == x;
  }

  lemma {:induction false} KeptBefore(s: seq<Hash>, keep: set<Hash>, y: Hash, x: Hash)
    requires Before(s, y, x) && y in keep && x in keep
    ensures Before(Kept(s, keep), y, x)
  {
    var i, j :| 0 <= i < j < |s| && s[i] == y && s[j] == x;
    KeptSpec(s[1..], keep);
    assert s == [s[0]] + s[1..];
    if i == 0 {
      assert s[1..][j - 1] == x;
      BeforeJoin([y], Kept(s[1..], keep), y, x);
    } else {
      assert s[1..][i - 1] == y && s[1..][j - 1] == x;
      KeptBefore(s[1..], keep, y, x);
      BeforeIn(if s[0] in keep then [s[0]] else [], Kept(s[1..], keep), y, x);
    }
  }

  lemma SplitHere(children: map<Hash, set<Hash>>, rest: seq<Hash>, p: Hash, c: Hash, d: Hash, x: Hash, y: Hash,
                  ready: set<Hash>, order: Order)
    requires LinksOk(children) && Orders(order, children) && Split(children, p, c, d, x, y) && x in ready && y in ready
    requires Clear(children, rest + [p], c) && Clear(children, rest + [p], d)
    requires order(p) != [] && order(p)[|order(p)| - 1] == d
    ensures Before(DepthFirst(children, rest + [p], ready, order), y, x)
  {
    var after, others := children - {p}, order(p)[..|order(p)| - 1];
    assert order(p) == others + [d] && c in others && p in rest + [p];
    assert rest + order(p) == rest + others + [d];
    UnderKept(children, c, p, x);
    UnderKept(children, d, p, y);
    LastFirst(after, rest + others, p, c, d, x, y, ready, order);
    PushedBack(children, rest, p, ready, order);
    BeforeIn(Kept(order(p), ready), DepthFirst(after, rest + order(p), ready, order), y, x);
  }

  lemma LastFirst(children: map<Hash, set<Hash>>, stack: seq<Hash>, p: Hash, c: Hash, d: Hash, x: Hash, y: Hash,
                  ready: set<Hash>, order: Order)
    requires LinksOk(children) && Orders(order, children)
    requires c.HashOf? && d.HashOf? && c.header.parent == p && d.header.parent == p && c != d && c in stack
    requires Under(children, {c}, x) && Under(children, {d}, y) && x in ready && y in ready
    ensures Before(DepthFirst(children, stack + [d], ready, order), y, x)
  {
    Drains(children, stack, [d], ready, order);
    assert Members([d]) == {d};
    DepthFirstMembers(children, [d], ready, order, y);
    CutOrders(order, children, {d});
    StillUnder(children, p, c, d, x);
    DepthFirstMembers(Cut(children, {d}), stack, ready, order, x);
    UnderMember(Cut(children, {d}), c, stack, x);
    BeforeJoin(DepthFirst(children, [d], ready, order), DepthFirst(Cut(children, {d}), stack, ready, order), y, x);
  }

  lemma UnderMember(children: map<Hash, set<Hash>>, c: Hash, stack: seq<Hash>, x: Hash)
    requires c in stack && Under(children, {c}, x)
    ensures Under(children, Members(stack), x)
  {
    BelowThrough(children, {c}, Members(stack), x.header.parent);
  }

  /** What is below `c` is not below its sibling `d`. */
  lemma {:induction false} StillBelow(children: map<Hash, set<Hash>>, p: Hash, c: Hash, d: Hash, k: Hash)
    requires c.HashOf? && d.HashOf? && c.header.parent == p && d.header.parent == p && c != d
    requires BelowAny(children, {c}, k)
    ensures BelowAny(Cut(children, {d}), {c}, k) && !BelowAny(children, {d}, k)
  {
    if k == c {
      NotBelowSibling(children, p, c, d);
    } else {
      StillBelow(children, p, c, d, k.header.parent);
      assert k != d by {
        if k == d {
          NotBelowSibling(children, p, d, c);
        }
      }
    }
  }

  lemma NotBelowSibling(children: map<Hash, set<Hash>>, p: Hash, c: Hash, d: Hash)
    requires c.HashOf? && d.HashOf? && c.header.parent == p && d.header.parent == p && c != d
    ensures !BelowAny(children, {d}, c)
  {
    if BelowAny(children, {d}, c) {
      BelowIsDeeper(children, d, p);
    }
  }

  lemma {:induction false} BelowIsDeeper(children: map<Hash, set<Hash>>, d: Hash, k: Hash)
    ensures BelowAny(children, {d}, k) ==> Depth(d) <= Depth(k)
  {
    if k != d && k.HashOf? {
      BelowIsDeeper(children, d, k.header.parent);
    }
  }

  lemma StillUnder(children: map<Hash, set<Hash>>, p: Hash, c: Hash, d: Hash, x: Hash)
    requires LinksOk(children) && c.HashOf? && d.HashOf? && c.header.parent == p && d.header.parent == p && c != d
    requires Under(children, {c}, x)
    ensures Under(Cut(children, {d}), {c}, x)
  {
    StillBelow(children, p, c, d, x.header.parent);
  }

  // ---------- exactly when ----------

  lemma BeforeBreaks(out: seq<Hash>, y: Hash, x: Hash)
    requires Before(out, y, x) && x.HashOf? && y.HashOf? && x.header.number < y.header.number
    ensures !Ascending(out)
  {
    var i, j :| 0 <= i < j < |out| && out[i] == y && out[j] == x;
  }

  ghost function Last(s: set<Hash>, d: Hash): (q: seq<Hash>)
    requires d in s
    ensures Lists(q, s) && q != [] && q[|q| - 1] == d
  {
    var others := ListOf(s - {d});
    DistinctAppend(others, d);
    others + [d]
  }

  ghost function LastOrder(children: map<Hash, set<Hash>>, p: Hash, d: Hash): (order: Order)
    requires p in children && d in children[p]
    ensures Orders(order, children) && order(p) != [] && order(p)[|order(p)| - 1] == d
  {
    Reordered(SomeOrder(children), p, Last(children[p], d))
  }

  /** Two ready blocks of different numbers below siblings make some order descend. */
  lemma UnevenDescends(children: map<Hash, set<Hash>>, root: Hash, p: Hash, c: Hash, d: Hash, x: Hash, y: Hash,
                       ready: set<Hash>)
      returns (order: Order)
    requires LinksOk(children) && BelowAny(children, {root}, p) && Split(children, p, c, d, x, y)
    requires x in ready && y in ready && x.header.number < y.header.number
    ensures Orders(order, children) && !Ascending(DepthFirst(children, [root], ready, order))
  {
    assert Members([root]) == {root};
    order := LastOrder(children, p, d);
    RootIsClear(children, root, p, c);
    RootIsClear(children, root, p, d);
    ComesBefore(children, [root], p, c, d, x, y, ready, order);
    BeforeBreaks(DepthFirst(children, [root], ready, order), y, x);
  }

  lemma RootIsClear(children: map<Hash, set<Hash>>, root: Hash, p: Hash, c: Hash)
    requires LinksOk(children) && BelowAny(children, {root}, p) && p in children && c in children[p]
    ensures Clear(children, [root], c)
  {
    assert c.HashOf? && c.header.parent == p && Depth(c) == Depth(p) + 1;
    BelowIsDeeper(children, root, p);
    BelowIsDeeper(children, c, root);
  }

  ghost predicate AlwaysAscends(children: map<Hash, set<Hash>>, root: Hash, ready: set<Hash>)
  {
    forall order: Order :: Orders(order, children) ==> Ascending(DepthFirst(children, [root], ready, order))
  }

  /**
   The numbers ascend, whatever the order of the children, exactly when below every hash that is
   reached: its ready children have one number, nothing ready below them is lower, and ready blocks
   strictly below different ones have the same number.
   */
  lemma AscendsIff(children: map<Hash, set<Hash>>, root: Hash, ready: set<Hash>)
    requires LinksOk(children)
    ensures AlwaysAscends(children, root, ready) <==> Level(children, {root}, ready)
  {
    assert Members([root]) == {root};
    if Level(children, {root}, ready) {
      forall order: Order | Orders(order, children)
        ensures Ascending(DepthFirst(children, [root], ready, order))
      {
        EvenAscends(children, [root], ready, order);
      }
    } else {
      var p :| p in children && BelowAny(children, {root}, p) && !Orderly(children, children[p], ready);
      var order := SomeOrderDescends(children, root, p, ready);
    }
  }

  lemma SomeOrderDescends(children: map<Hash, set<Hash>>, root: Hash, p: Hash, ready: set<Hash>)
      returns (order: Order)
    requires LinksOk(children) && p in children && BelowAny(children, {root}, p)
    requires !Orderly(children, children[p], ready)
    ensures Orders(order, children) && !Ascending(DepthFirst(children, [root], ready, order))
  {
    if !Even(children, children[p], ready) {
      var c, d, x, y :| c in children[p] && d in children[p] && c != d && Apart(children, ready, c, d, x, y) &&
                        x.header.number != y.header.number;
      if x.header.number < y.header.number {
        order := UnevenDescends(children, root, p, c, d, x, y, ready);
      } else {
        order := UnevenDescends(children, root, p, d, c, y, x, ready);
      }
    } else if k, l :| k in children[p] && l in children[p] && k in ready && l in ready && !SameNumber(k, l) {
      if k.header.number < l.header.number {
        order := SiblingsDescend(children, root, p, l, k, ready);
      } else {
        order := SiblingsDescend(children, root, p, k, l, ready);
      }
    } else {
      var k, x :| k in children[p] && k in ready && x in ready && Under(children, children[p], x) && !NotLower(k, x);
      order := LowerDescends(children, root, p, k, x, ready);
    }
  }

  lemma SiblingsDescend(children: map<Hash, set<Hash>>, root: Hash, p: Hash, l: Hash, k: Hash, ready: set<Hash>)
      returns (order: Order)
    requires LinksOk(children) && p in children && BelowAny(children, {root}, p)
    requires k in children[p] && l in children[p] && k in ready && l in ready && k.header.number < l.header.number
    ensures Orders(order, children) && !Ascending(DepthFirst(children, [root], ready, order))
  {
    Single(root);
    order := LastOrder(children, p, k);
    var i :| 0 <= i < |order(p)| && order(p)[i] == l;
    assert Before(order(p), l, k);
    SiblingsBefore(children, [root], p, l, k, ready, order);
    BeforeBreaks(DepthFirst(children, [root], ready, order), l, k);
  }

  lemma LowerDescends(children: map<Hash, set<Hash>>, root: Hash, p: Hash, k: Hash, x: Hash, ready: set<Hash>)
      returns (order: Order)
    requires LinksOk(children) && p in children && BelowAny(children, {root}, p) && k in children[p] && k in ready
    requires x in ready && Under(children, children[p], x) && !NotLower(k, x)
    ensures Orders(order, children) && !Ascending(DepthFirst(children, [root], ready, order))
  {
    Single(root);
    order := SomeOrder(children);
    var c := RootOf(children, children[p], x.header.parent);
    RootIsClear(children, root, p, c);
    KidBefore(children, [root], p, k, c, x, ready, order);
    BeforeBreaks(DepthFirst(children, [root], ready, order), k, x);
  }

  /** If the numbers go up by one along every link, only what is below different siblings matters. */
  lemma StepwiseLevel(children: map<Hash, set<Hash>>, roots: set<Hash>, ready: set<Hash>)
    requires Stepwise(children)
    ensures Level(children, roots, ready) <==>
            forall p :: p in children && BelowAny(children, roots, p) ==> Even(children, children[p], ready)
  {
    forall p | p in children && Even(children, children[p], ready)
      ensures Orderly(children, children[p], ready)
    {
      forall k | k in children[p]
        ensures k.HashOf? && p.HashOf? && k.header.number == p.header.number + 1
      {
        assert Link(children, k);
      }
      forall x | Under(children, children[p], x)
        ensures x.HashOf? && p.HashOf? && x.header.number > p.header.number
      {
        var r := RootOf(children, children[p], x.header.parent);
        assert Link(children, r);
        HigherBelow(children, children[p], p.header.number, x);
      }
    }
  }

  lemma {:induction false} HigherBelow(children: map<Hash, set<Hash>>, roots: set<Hash>, n: nat, x: Hash)
    requires Stepwise(children) && BelowAny(children, roots, x)
    requires forall r :: r in roots ==> r.HashOf? && r.header.number > n
    ensures x.HashOf? && x.header.number > n
  {
    if x !in roots {
      HigherBelow(children, roots, n, x.header.parent);
    }
  }

  /** If the condition holds, a whole removal, the root included, is in number order. */
  lemma RemovalAscends(v: BufferView, root: Hash, removed: seq<(Header, Witness)>)
    requires RemovedDepthFirst(v, root, removed) && LinksOk(v.children)
    requires var w := if root in AllReady(v) then Taken(v, root) else v;
             && Level(w.children, {root}, AllReady(w))
             && (root in AllReady(v) ==>
                   forall x :: x in AllReady(w) && Under(w.children, {root}, x) ==> NotLower(root, x))
    ensures Ascending(Hashes(removed))
  {
    assert Members([root]) == {root};
    if root in AllReady(v) {
      var w := Taken(v, root);
      var order: Order :| Orders(order, w.children) &&
                          Hashes(removed[1..]) == DepthFirst(w.children, [root], AllReady(w), order);
      LinksStayOk(v, root);
      EvenAscends(w.children, [root], AllReady(w), order);
      RootNotHigher(w.children, root, AllReady(w), order);
      RootThenHigher(root, removed);
    } else {
      var order: Order :| Orders(order, v.children) &&
                          Hashes(removed) == DepthFirst(v.children, [root], AllReady(v), order);
      EvenAscends(v.children, [root], AllReady(v), order);
    }
  }

  lemma LinksStayOk(v: BufferView, h: Hash)
    requires LinksOk(v.children)
    ensures LinksOk(Taken(v, h).children)
  {
  }

  lemma RootNotHigher(children: map<Hash, set<Hash>>, root: Hash, ready: set<Hash>, order: Order)
    requires LinksOk(children) && Orders(order, children)
    requires forall x :: x in ready && Under(children, {root}, x) ==> NotLower(root, x)
    ensures forall x :: x in DepthFirst(children, [root], ready, order) ==> NotLower(root, x)
  {
    Single(root);
    forall x | x in DepthFirst(children, [root], ready, order)
      ensures NotLower(root, x)
    {
      DepthFirstMembers(children, [root], ready, order, x);
    }
  }

  lemma RootThenHigher(root: Hash, removed: seq<(Header, Witness)>)
    requires |removed| > 0 && HashOf(removed[0].0) == root && Ascending(Hashes(removed[1..]))
    requires forall x :: x in Hashes(removed[1..]) ==> NotLower(root, x)
    ensures Ascending(Hashes(removed))
  {
    var later := Hashes(removed[1..]);
    assert forall x :: x in later ==> x.HashOf?;
    forall x, y | x in [root] && y in later
      ensures x.header.number <= y.header.number
    {
      assert NotLower(root, y);
    }
    LevelThenHigher([root], later);
    assert Hashes(removed) == [root] + later;
  }

  // ---------- two branches ----------

  /** The two branches are `a`, `a1`, `a2` and `b`, `b1`, `b2`, each linked only to the next. */
  ghost predicate TwoBranches(children: map<Hash, set<Hash>>, root: Hash, a: seq<Hash>, b: seq<Hash>)
  {
    && |a| == |b| == 3 && root in children && children[root] == {a[0], b[0]} && a[0] != b[0]
    && Branch(children, a) && Branch(children, b) && root !in a && root !in b && (forall x :: x in a ==> x !in b)
  }

  ghost predicate Branch(children: map<Hash, set<Hash>>, a: seq<Hash>)
    requires |a| == 3
  {
    && Distinct(a) && a[0] in children && children[a[0]] == {a[1]}
    && a[1] in children && children[a[1]] == {a[2]} && a[2] !in children
  }

  lemma {:induction false} DistinctCount(q: seq<Hash>)
    requires Distinct(q)
    ensures |Members(q)| == |q|
  {
    if q == [] {
      assert Members(q) == {};
    } else {
      var rest, last := q[..|q| - 1], q[|q| - 1];
      DistinctCount(rest);
      assert q == rest + [last] && last !in rest;
      assert Members(q) == Members(rest) + {last};
    }
  }

  lemma ListsOne(q: seq<Hash>, c: Hash)
    requires Lists(q, {c})
    ensures q == [c]
  {
    assert Members(q) == {c} && q[0] in q;
    DistinctCount(q);
  }

  lemma ListsTwo(q: seq<Hash>, c: Hash, d: Hash)
    requires Lists(q, {c, d}) && c != d
    ensures q == [c, d] || q == [d, c]
  {
    assert Members(q) == {c, d};
    DistinctCount(q);
    assert q[0] in q && q[1] in q;
  }

  /** Popping a hash with one child, which is ready, yields that child next. */
  lemma OnlyChild(children: map<Hash, set<Hash>>, rest: seq<Hash>, p: Hash, c: Hash, ready: set<Hash>, order: Order)
    requires p in children && children[p] == {c} && c in ready && Orders(order, children)
    ensures DepthFirst(children, rest + [p], ready, order) == [c] + DepthFirst(children - {p}, rest + [c], ready, order)
  {
    ListsOne(order(p), c);
    PushedBack(children, rest, p, ready, order);
    assert Kept([c], ready) == [c];
  }

  /** A branch of three on top of the stack comes out whole. */
  lemma WholeBranch(children: map<Hash, set<Hash>>, rest: seq<Hash>, a0: Hash, a1: Hash, a2: Hash, ready: set<Hash>,
                    order: Order)
    requires a0 in children && children[a0] == {a1} && a1 in children && children[a1] == {a2} && a2 !in children
    requires a0 != a1 && a1 in ready && a2 in ready && Orders(order, children)
    ensures DepthFirst(children, rest + [a0], ready, order) ==
            [a1] + ([a2] + DepthFirst(children - {a0} - {a1}, rest, ready, order))
  {
    OnlyChild(children, rest, a0, a1, ready, order);
    OnlyChild(children - {a0}, rest, a1, a2, ready, order);
    PushedBack(children - {a0} - {a1}, rest, a2, ready, order);
  }

  /** The branch on top of the stack comes out whole before anything of the other. */
  lemma BranchFirst(children: map<Hash, set<Hash>>, y: seq<Hash>, x: seq<Hash>, ready: set<Hash>, order: Order)
      returns (later: seq<Hash>)
    requires |x| == |y| == 3 && Branch(children, x) && Branch(children, y) && (forall h :: h in x ==> h !in y)
    requires x[1] in ready && x[2] in ready && y[1] in ready && Orders(order, children)
    ensures DepthFirst(children, [y[0], x[0]], ready, order) == [x[1], x[2], y[1]] + later
  {
    var y0, y1, x0, x1, x2 := y[0], y[1], x[0], x[1], x[2];
    assert x0 in x && x1 in x && y0 in y;
    later := OtherBranch(children, y0, y1, x0, x1, x2, ready, order);
    assert [y0] + [x0] == [y0, x0];
    ThreeInFront(x1, x2, y1, later);
  }

  lemma OtherBranch(children: map<Hash, set<Hash>>, y0: Hash, y1: Hash, x0: Hash, x1: Hash, x2: Hash, ready: set<Hash>,
                    order: Order)
      returns (later: seq<Hash>)
    requires x0 in children && children[x0] == {x1} && x1 in children && children[x1] == {x2} && x2 !in children
    requires x0 != x1 && y0 != x0 && y0 != x1 && y0 in children && children[y0] == {y1}
    requires x1 in ready && x2 in ready && y1 in ready && Orders(order, children)
    ensures DepthFirst(children, [y0] + [x0], ready, order) == [x1] + ([x2] + ([y1] + later))
  {
    var fewer := children - {x0} - {x1};
    WholeBranch(children, [y0], x0, x1, x2, ready, order);
    OnlyChild(fewer, [], y0, y1, ready, order);
    Single(y0);
    later := DepthFirst(fewer - {y0}, [] + [y1], ready, order);
  }

  lemma ThreeInFront(a: Hash, b: Hash, c: Hash, later: seq<Hash>)
    ensures [a] + ([b] + ([c] + later)) == [a, b, c] + later
  {
  }

  /** A block and its grandchild below different children of the same root, in this order, break the order. */
  lemma BranchBreaksOrder(children: map<Hash, set<Hash>>, root: Hash, x: seq<Hash>, y: seq<Hash>, out: seq<Hash>,
                          later: seq<Hash>)
    requires Stepwise(children) && |x| == |y| == 3 && Branch(children, x) && Branch(children, y)
    requires root in children && x[0] in children[root] && y[0] in children[root]
    requires out == [y[0], x[0]] + ([x[1], x[2], y[1]] + later)
    ensures !Ascending(out)
  {
    assert out[3] == x[2] && out[4] == y[1];
    assert Link(children, x[0]) && Link(children, x[1]) && Link(children, x[2]);
    assert Link(children, y[0]) && Link(children, y[1]);
  }

  /** With two ready branches of three blocks each below a root, no order of the children gives ascending numbers. */
  lemma NeverAscends(children: map<Hash, set<Hash>>, root: Hash, a: seq<Hash>, b: seq<Hash>, ready: set<Hash>,
                     order: Order)
    requires TwoBranches(children, root, a, b) && Stepwise(children) && Orders(order, children)
    requires forall h :: h in a || h in b ==> h in ready
    ensures !Ascending(DepthFirst(children, [root], ready, order))
  {
    ListsTwo(order(root), a[0], b[0]);
    if order(root) == [a[0], b[0]] {
      EitherWay(children, root, b, a, ready, order);
    } else {
      EitherWay(children, root, a, b, ready, order);
    }
  }

  lemma EitherWay(children: map<Hash, set<Hash>>, root: Hash, x: seq<Hash>, y: seq<Hash>, ready: set<Hash>,
                  order: Order)
    requires TwoBranches(children, root, x, y) && Stepwise(children) && Orders(order, children)
    requires (forall h :: h in x || h in y ==> h in ready) && order(root) == [y[0], x[0]]
    ensures !Ascending(DepthFirst(children, [root], ready, order))
  {
    assert x[0] in x && x[1] in x && x[2] in x && y[0] in y && y[1] in y && y[2] in y;
    assert [] + [root] == [root] && [] + [y[0], x[0]] == [y[0], x[0]];
    PushedBack(children, [], root, ready, order);
    KeptAll([y[0], x[0]], ready);
    var rest := BranchFirst(children - {root}, y, x, ready, order);
    BranchBreaksOrder(children, root, x, y, DepthFirst(children, [root], ready, order), rest);
  }

  // ---------- a buffer for which it never is ----------

  /** Three blocks on top of each other and of the root. */
  ghost predicate Chained(root: Hash, a: seq<Hash>)
  {
    && root.HashOf? && |a| == 3 && (forall h :: h in a ==> h.HashOf?)
    && a[0].header.parent == root && a[1].header.parent == a[0] && a[2].header.parent == a[1]
    && forall i :: 0 <= i < 3 ==> a[i].header.number == root.header.number + 1 + i
  }

  ghost predicate Fork(root: Hash, a: seq<Hash>, b: seq<Hash>)
  {
    Chained(root, a) && Chained(root, b) && a[0] != b[0]
  }

  const LIMIT: nat := 256

  /** Inserting blocks with complete witnesses, one after the other. */
  ghost function Grow(v: BufferView, hashes: seq<Hash>): BufferView
    requires forall h :: h in hashes ==> h.HashOf?
  {
    if hashes == [] then v
    else
      var h, before := hashes[|hashes| - 1], hashes[..|hashes| - 1];
      WitnessInserted(Inserted(Grow(v, before), h.header, LIMIT), h, Witness({}, 0), {})
  }

  /** A coherent buffer that holds exactly the given blocks, all of them ready and listed. */
  ghost predicate Holds(v: BufferView, hashes: seq<Hash>)
  {
    && Coherent(v, LIMIT) && v.missing == map[] && |v.lru| == |hashes|
    && (forall h :: h in v.blocks <==> h in hashes) && (forall h :: h in v.witnesses <==> h in hashes)
    && (forall h :: h in hashes ==> Link(v.children, h))
  }

  lemma GrowOne(v: BufferView, before: seq<Hash>, h: Hash)
    requires Holds(v, before) && |before| < LIMIT && h.HashOf? && h !in before
    ensures Holds(WitnessInserted(Inserted(v, h.header, LIMIT), h, Witness({}, 0), {}), before + [h])
  {
    InsertedCoherent(v, h.header, LIMIT);
    var w := Inserted(v, h.header, LIMIT);
    assert h !in v.lru && w == Indexed(v, h.header).(lru := v.lru + [h]);
    forall x | x in before + [h]
      ensures Link(w.children, x)
    {
      assert x == h || Link(v.children, x);
    }
  }

  lemma {:induction false} GrowHolds(v: BufferView, hashes: seq<Hash>)
    requires Holds(v, []) && |hashes| <= LIMIT && Distinct(hashes) && forall h :: h in hashes ==> h.HashOf?
    ensures Holds(Grow(v, hashes), hashes)
  {
    if hashes != [] {
      var h, before := hashes[|hashes| - 1], hashes[..|hashes| - 1];
      assert hashes == before + [h] && h !in before;
      GrowHolds(v, before);
      GrowOne(Grow(v, before), before, h);
    }
  }

  lemma {:induction false} ForkApart(root: Hash, a: seq<Hash>, b: seq<Hash>)
    requires Fork(root, a, b)
    ensures Distinct(a) && Distinct(b) && Distinct(a + b) && root !in a && root !in b
    ensures (forall h :: h in a ==> h !in b)
  {
    forall i, j | 0 <= i < 3 && 0 <= j < 3
      ensures a[i] != b[j]
    {
      if i == j == 1 {
        assert a[1].header.parent != b[1].header.parent;
      } else if i == j == 2 {
        assert a[1] != b[1] by { assert a[1].header.parent != b[1].header.parent; }
      }
    }
    assert forall h :: h in a ==> h.header.number > root.header.number;
    assert forall h :: h in b ==> h.header.number > root.header.number;
  }

  /** The links of a buffer that holds exactly the given blocks. */
  ghost predicate Shows(children: map<Hash, set<Hash>>, held: set<Hash>)
  {
    && LinksOk(children) && (forall p, c :: p in children && c in children[p] ==> c in held)
    && (forall p :: p in children ==> children[p] != {}) && (forall h :: h in held ==> Link(children, h))
  }

  lemma HoldsShows(v: BufferView, hashes: seq<Hash>)
    requires Holds(v, hashes)
    ensures Shows(v.children, Members(hashes))
  {
  }

  /** The listed children of a hash are exactly the held blocks on top of it. */
  lemma HeldChildren(children: map<Hash, set<Hash>>, held: set<Hash>, p: Hash, kids: set<Hash>)
    requires Shows(children, held) && (forall c :: c in kids <==> c in held && c.HashOf? && c.header.parent == p)
    ensures if kids == {} then p !in children else p in children && children[p] == kids
  {
    if p in children {
      assert forall c :: c in children[p] ==> c in kids;
      assert forall c :: c in kids ==> Link(children, c);
    } else {
      assert forall c :: c in kids ==> Link(children, c);
    }
  }

  /** On top of a block of one branch sits only the next block of that branch. */
  lemma OnTop(root: Hash, a: seq<Hash>, b: seq<Hash>, c: Hash)
    requires Fork(root, a, b) && (c in a || c in b)
    ensures c.HashOf? && (c.header.parent == root <==> c == a[0] || c == b[0])
    ensures (c.header.parent == a[0] <==> c == a[1]) && (c.header.parent == a[1] <==> c == a[2])
    ensures c.header.parent != a[2]
    ensures c.header.parent.HashOf? && c.header.number == c.header.parent.header.number + 1
  {
    ForkApart(root, a, b);
  }

  /** Exactly the blocks of both branches. */
  ghost predicate Both(held: set<Hash>, a: seq<Hash>, b: seq<Hash>)
  {
    forall c :: c in held <==> c in a || c in b
  }

  lemma HeldBranch(children: map<Hash, set<Hash>>, root: Hash, a: seq<Hash>, b: seq<Hash>, held: set<Hash>)
    requires Fork(root, a, b) && Shows(children, held) && Both(held, a, b)
    ensures Branch(children, a)
  {
    ForkApart(root, a, b);
    assert a[1] in a && a[2] in a;
    forall c | c in held
      ensures c.HashOf? && (c.header.parent == a[0] <==> c == a[1])
      ensures (c.header.parent == a[1] <==> c == a[2]) && c.header.parent != a[2]
    {
      OnTop(root, a, b, c);
    }
    HeldChildren(children, held, a[0], {a[1]});
    HeldChildren(children, held, a[1], {a[2]});
    HeldChildren(children, held, a[2], {});
  }

  lemma HeldFork(children: map<Hash, set<Hash>>, root: Hash, a: seq<Hash>, b: seq<Hash>, held: set<Hash>)
    requires Fork(root, a, b) && Shows(children, held) && Both(held, a, b)
    ensures TwoBranches(children, root, a, b)
  {
    ForkApart(root, a, b);
    HeldBranch(children, root, a, b, held);
    HeldBranch(children, root, b, a, held);
    HeldOnRoot(children, root, a, b, held);
  }

  lemma HeldOnRoot(children: map<Hash, set<Hash>>, root: Hash, a: seq<Hash>, b: seq<Hash>, held: set<Hash>)
    requires Fork(root, a, b) && Shows(children, held) && Both(held, a, b)
    ensures root in children && children[root] == {a[0], b[0]}
  {
    assert a[0] in a && b[0] in b;
    forall c | c in held
      ensures c.HashOf? && (c.header.parent == root <==> c == a[0] || c == b[0])
    {
      OnTop(root, a, b, c);
    }
    HeldChildren(children, held, root, {a[0], b[0]});
  }

  lemma HeldStepwise(children: map<Hash, set<Hash>>, root: Hash, a: seq<Hash>, b: seq<Hash>, held: set<Hash>)
    requires Fork(root, a, b) && Shows(children, held) && Both(held, a, b)
    ensures Stepwise(children)
  {
    forall c | Link(children, c)
      ensures c.header.parent.HashOf? && c.header.number == c.header.parent.header.number + 1
    {
      OnTop(root, a, b, c);
    }
  }

  lemma HeldNeverAscends(v: BufferView, root: Hash, a: seq<Hash>, b: seq<Hash>, removed: seq<(Header, Witness)>)
    requires Fork(root, a, b) && Shows(v.children, AllReady(v)) && Both(AllReady(v), a, b)
    requires RemovedDepthFirst(v, root, removed)
    ensures !Ascending(Hashes(removed))
  {
    ForkApart(root, a, b);
    HeldFork(v.children, root, a, b, AllReady(v));
    HeldStepwise(v.children, root, a, b, AllReady(v));
    var order: Order :| Orders(order, v.children) &&
                          Hashes(removed) == DepthFirst(v.children, [root], AllReady(v), order);
    NeverAscends(v.children, root, a, b, AllReady(v), order);
  }

  lemma AllAreReady(v: BufferView, a: seq<Hash>, b: seq<Hash>)
    requires Holds(v, a + b)
    ensures Shows(v.children, AllReady(v)) && Both(AllReady(v), a, b)
  {
    HoldsShows(v, a + b);
    assert Members(a + b) == AllReady(v);
  }

  /** The buffer that inserting two such branches, with complete witnesses, into an empty one leads to. */
  ghost predicate Grown(v: BufferView, a: seq<Hash>, b: seq<Hash>)
    requires forall h :: h in a + b ==> h.HashOf?
  {
    exists empty :: Holds(empty, []) && v == Grow(empty, a + b)
  }

  /** Its removal is never in number order. */
  lemma ForkNeverAscends(root: Hash, a: seq<Hash>, b: seq<Hash>, v: BufferView, removed: seq<(Header, Witness)>)
    requires Fork(root, a, b) && Grown(v, a, b) && RemovedDepthFirst(v, root, removed)
    ensures !Ascending(Hashes(removed))
  {
    var empty :| Holds(empty, []) && v == Grow(empty, a + b);
    ForkApart(root, a, b);
    GrowHolds(empty, a + b);
    AllAreReady(v, a, b);
    HeldNeverAscends(v, root, a, b, removed);
  }

  /** There are such branches, on every root, and such a buffer. */
  lemma ForkExists(root: Hash) returns (a: seq<Hash>, b: seq<Hash>, v: BufferView)
    requires root.HashOf?
    ensures Fork(root, a, b) && Grown(v, a, b)
  {
    a := ChainOn(root, 1);
    b := ChainOn(root, 2);
    v := GrownFrom(a, b);
  }

  lemma ChainOn(root: Hash, salt: nat) returns (a: seq<Hash>)
    requires root.HashOf?
    ensures Chained(root, a) && a[0].header.salt == salt
  {
    var n := root.header.number;
    var a0 := HashOf(Header(root, n + 1, false, salt));
    var a1 := HashOf(Header(a0, n + 2, false, 0));
    a := [a0, a1, HashOf(Header(a1, n + 3, false, 0))];
  }

  lemma GrownFrom(a: seq<Hash>, b: seq<Hash>) returns (v: BufferView)
    requires forall h :: h in a + b ==> h.HashOf?
    ensures Grown(v, a, b)
  {
    var empty := BufferView(map[], map[], map[], map[], map[], []);
    assert Holds(empty, []);
    v := Grow(empty, a + b);
  }
}
