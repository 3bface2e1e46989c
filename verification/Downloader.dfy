/**
 Requests in flight, and the queue of finished downloads. A request is the state of its fetch.
 */
module Downloads {
  import opened Blocks
  import opened ChainSwitch
  import opened Fetch

  datatype Outcome =
    | FullBlock(block: Header)
    | Bytecode(code: Code)
    | WitnessOf(hash: Hash, wit: Witness)
    | FinalizedBlock(block: Header, ancestors: seq<Header>)

  /** Responses to the two requests of a block fetch. */
  datatype BlockArrivals = BlockArrivals(headers: seq<Response<Option<Header>>>, bodies: seq<Response<Option<Body>>>)

  /** What the network has ready when the downloader is polled. */
  datatype Arrivals = Arrivals(
    blocks: Hash -> BlockArrivals,
    finalized: Hash -> BlockArrivals,
    ranges: Hash -> seq<Response<seq<Header>>>,
    codes: Code -> bool,
    witnesses: Hash -> Option<Witness>)

  const ANCESTOR_COUNT: nat := 256

  // ---------- one pass over one class of requests ----------

  /** The results of a pass; the last request is polled first. */
  function Finished<R, D>(requests: seq<R>, poll: R -> Polling<R, D>): seq<D>
  {
    if requests == [] then []
    else
      Finished(requests[1..], poll) +
      (match poll(requests[0]) case Done(result) => [result] case Waits(_) => [])
  }

  /** The unfinished requests, each advanced by exactly one poll. */
  function Advanced<R, D>(requests: seq<R>, poll: R -> Polling<R, D>): seq<R>
  {
    if requests == [] then []
    else
      (match poll(requests[0]) case Done(_) => [] case Waits(state) => [state]) +
      Advanced(requests[1..], poll)
  }

  /** Removes one element by moving the last one into its place. */
  function SwapRemove<R>(s: seq<R>, i: nat): seq<R>
    requires i < |s|
  {
    if i == |s| - 1 then s[..i] else s[..|s| - 1][i := s[|s| - 1]]
  }

  lemma SwapRemoveSpec<R>(s: seq<R>, i: nat)
    requires i < |s|
    ensures |SwapRemove(s, i)| == |s| - 1 && SwapRemove(s, i)[..i] == s[..i]
    ensures multiset(SwapRemove(s, i)[i..]) == multiset(s[i + 1..])
  {
    var t := SwapRemove(s, i);
    if i < |s| - 1 {
      var last := s[|s| - 1];
      assert t[i..] == [last] + s[i + 1..|s| - 1];
      assert s[i + 1..] == s[i + 1..|s| - 1] + [last];
    } else {
      assert t[i..] == [] && s[i + 1..] == [];
    }
  }

  /** A request that stays goes to the back, in its new state. */
  lemma SwapToBack<R>(s: seq<R>, i: nat, r: R)
    requires i < |s|
    ensures var t := SwapRemove(s, i) + [r];
            |t| == |s| && t[..i] == s[..i] && multiset(t[i..]) == multiset(s[i + 1..]) + multiset{r}
  {
    SwapRemoveSpec(s, i);
    var left := SwapRemove(s, i);
    assert (left + [r])[i..] == left[i..] + [r];
    assert (left + [r])[..i] == left[..i];
  }

  /** The state of a pass that has polled the requests from index `i` on. */
  ghost predicate Advancing<R, D>(requests: seq<R>, poll: R -> Polling<R, D>, i: nat, rest: seq<R>, finished: seq<D>)
    requires i <= |requests|
  {
    && |rest| >= i && rest[..i] == requests[..i]
    && multiset(rest[i..]) == multiset(Advanced(requests[i..], poll))
    && finished == Finished(requests[i..], poll)
  }

  lemma PollStep<R, D>(requests: seq<R>, poll: R -> Polling<R, D>, i: nat)
    requires i < |requests|
    ensures match poll(requests[i])
            case Done(result) =>
              && Finished(requests[i..], poll) == Finished(requests[i + 1..], poll) + [result]
              && Advanced(requests[i..], poll) == Advanced(requests[i + 1..], poll)
            case Waits(state) =>
              && Finished(requests[i..], poll) == Finished(requests[i + 1..], poll)
              && Advanced(requests[i..], poll) == [state] + Advanced(requests[i + 1..], poll)
  {
    assert requests[i..][1..] == requests[i + 1..];
  }

  lemma SamePrefix<R>(s: seq<R>, t: seq<R>, i: nat)
    requires i < |s| && i < |t| && s[..i + 1] == t[..i + 1]
    ensures s[i] == t[i] && s[..i] == t[..i]
  {
    assert s[i] == s[..i + 1][i] && t[i] == t[..i + 1][i];
    assert s[..i] == s[..i + 1][..i] && t[..i] == t[..i + 1][..i];
  }

  lemma AdvanceStep<R, D>(requests: seq<R>, poll: R -> Polling<R, D>, i: nat, rest: seq<R>, finished: seq<D>)
    requires i < |requests| && Advancing(requests, poll, i + 1, rest, finished)
    ensures rest[i] == requests[i]
    ensures match poll(requests[i])
            case Done(result) => Advancing(requests, poll, i, SwapRemove(rest, i), finished + [result])
            case Waits(state) => Advancing(requests, poll, i, SwapRemove(rest, i) + [state], finished)
  {
    PollStep(requests, poll, i);
    SamePrefix(rest, requests, i);
    match poll(requests[i])
    case Done(_) => SwapRemoveSpec(rest, i);
    case Waits(state) => SwapToBack(rest, i, state);
  }

  /** Polls every request exactly once, from the back, dropping the finished ones in place. */
  method AdvanceAll<R, D>(requests: seq<R>, poll: R -> Polling<R, D>) returns (rest: seq<R>, finished: seq<D>)
    ensures finished == Finished(requests, poll)
    ensures multiset(rest) == multiset(Advanced(requests, poll))
  {
    rest, finished := requests, [];
    for i := |requests| downto 0
      invariant Advancing(requests, poll, i, rest, finished)
    {
      AdvanceStep(requests, poll, i, rest, finished);
      var request := rest[i];
      rest := SwapRemove(rest, i);
      match poll(request)
      case Done(result) =>
        finished := finished + [result];
      case Waits(state) =>
        rest := rest + [state];
    }
    assert rest[0..] == rest && requests[0..] == requests;
  }

  // ---------- conservation ----------

  /** A pass loses nothing: every request is either advanced and still in flight, or among the results. */
  lemma {:induction false} PassConserves<R, D>(requests: seq<R>, poll: R -> Polling<R, D>, r: R)
    requires r in requests
    ensures match poll(r)
            case Done(result) => result in Finished(requests, poll)
            case Waits(state) => state in Advanced(requests, poll)
    decreases |requests|
  {
    if r != requests[0] {
      assert requests == [requests[0]] + requests[1..];
      PassConserves(requests[1..], poll, r);
    }
  }

  /** A pass invents nothing: what is in flight afterwards, or finished, comes from one request. */
  lemma {:induction false} PassInvents<R, D>(requests: seq<R>, poll: R -> Polling<R, D>)
    ensures forall x :: x in Advanced(requests, poll) ==> exists r :: r in requests && poll(r) == Waits(x)
    ensures forall o :: o in Finished(requests, poll) ==> exists r :: r in requests && poll(r) == Done(o)
    decreases |requests|
  {
    if requests != [] {
      var first, rest := requests[0], requests[1..];
      assert requests == [first] + rest;
      PassInvents(rest, poll);
      forall x | x in Advanced(requests, poll)
        ensures exists r :: r in requests && poll(r) == Waits(x)
      {
        if x in Advanced(rest, poll) {
          var r :| r in rest && poll(r) == Waits(x);
          assert r in requests;
        } else {
          assert first in requests && poll(first) == Waits(x);
        }
      }
      forall o | o in Finished(requests, poll)
        ensures exists r :: r in requests && poll(r) == Done(o)
      {
        if o in Finished(rest, poll) {
          var r :| r in rest && poll(r) == Done(o);
          assert r in requests;
        } else {
          assert first in requests && poll(first) == Done(o);
        }
      }
    }
  }

  lemma {:induction false} PassCounts<R, D>(requests: seq<R>, poll: R -> Polling<R, D>)
    ensures |Finished(requests, poll)| + |Advanced(requests, poll)| == |requests|
    decreases |requests|
  {
    if requests != [] {
      PassCounts(requests[1..], poll);
    }
  }

  // ---------- no key twice ----------

  /** No request, and no key, is in flight twice. */
  ghost predicate Once<R(!new), K>(s: seq<R>, key: R -> K)
  {
    && (forall x :: multiset(s)[x] <= 1)
    && (forall x, y :: x in s && y in s && key(x) == key(y) ==> x == y)
  }

  ghost predicate KeepsKey<R(!new), D, K>(poll: R -> Polling<R, D>, key: R -> K)
  {
    forall r :: poll(r).Waits? ==> key(poll(r).state) == key(r)
  }

  lemma OnceStarted<R(!new), K>(s: seq<R>, key: R -> K, r: R)
    requires Once(s, key) && forall x :: x in s ==> key(x) != key(r)
    ensures Once(s + [r], key)
  {
    assert r !in s;
    assert multiset(s)[r] == 0;
  }

  lemma OnceTail<R(!new), K>(s: seq<R>, key: R -> K)
    requires Once(s, key) && s != []
    ensures Once(s[1..], key) && forall x :: x in s[1..] ==> key(x) != key(s[0])
  {
    assert s == [s[0]] + s[1..];
    forall x
      ensures multiset(s[1..])[x] <= 1
    {
      assert multiset(s)[x] <= 1;
    }
    assert multiset(s)[s[0]] <= 1;
  }

  lemma {:induction false} AdvancedOnce<R(!new), D, K>(s: seq<R>, poll: R -> Polling<R, D>, key: R -> K)
    requires Once(s, key) && KeepsKey(poll, key)
    ensures Once(Advanced(s, poll), key)
    decreases |s|
  {
    if s != [] {
      var rest := s[1..];
      OnceTail(s, key);
      AdvancedOnce(rest, poll, key);
      if poll(s[0]).Waits? {
        PassInvents(rest, poll);
        var state := poll(s[0]).state;
        assert state !in Advanced(rest, poll);
        assert Advanced(s, poll) == [state] + Advanced(rest, poll);
      }
    }
  }

  lemma OnceReordered<R(!new), K>(s: seq<R>, t: seq<R>, key: R -> K)
    requires Once(s, key) && multiset(s) == multiset(t)
    ensures Once(t, key)
  {
    assert forall x :: x in t <==> x in multiset(t);
    assert forall x :: x in s <==> x in multiset(s);
  }

  lemma PassedOnce<R(!new), D, K>(s: seq<R>, poll: R -> Polling<R, D>, key: R -> K, rest: seq<R>)
    requires Once(s, key) && KeepsKey(poll, key) && multiset(rest) == multiset(Advanced(s, poll))
    ensures Once(rest, key)
  {
    AdvancedOnce(s, poll, key);
    OnceReordered(Advanced(s, poll), rest, key);
  }

  // ---------- the four classes ----------

  function BlockKey(f: BlockFetch): Hash { f.hash }

  function FinalizedKey(f: AncestorFetch): Hash { f.fetch.hash }

  function HashKey(h: Hash): Hash { h }

  function CodeKey(c: Code): Code { c }

  function BlockPoll(a: Arrivals, checks: Checks): BlockFetch -> Polling<BlockFetch, Outcome>
  {
    (f: BlockFetch) =>
      match PollBlock(f, a.blocks(f.hash).headers, a.blocks(f.hash).bodies, checks)
      case Done(block) => Done(FullBlock(block.0))
      case Waits(state) => Waits(state)
  }

  function FinalizedPoll(a: Arrivals, checks: Checks): AncestorFetch -> Polling<AncestorFetch, Outcome>
  {
    (f: AncestorFetch) =>
      var arrivals := a.finalized(f.fetch.hash);
      match PollAncestors(f, arrivals.headers, arrivals.bodies, a.ranges(f.fetch.hash), checks)
      case Done(r) => Done(FinalizedBlock(r.0, r.1))
      case Waits(state) => Waits(state)
  }

  function WitnessPoll(a: Arrivals): Hash -> Polling<Hash, Outcome>
  {
    (h: Hash) => match a.witnesses(h) case Some(w) => Done(WitnessOf(h, w)) case None => Waits(h)
  }

  function CodePoll(a: Arrivals): Code -> Polling<Code, Outcome>
  {
    (c: Code) => if a.codes(c) then Done(Bytecode(c)) else Waits(c)
  }

  datatype DownloadView = DownloadView(
    fullBlocks: seq<BlockFetch>,
    codes: seq<Code>,
    witnesses: seq<Hash>,
    finalized: seq<AncestorFetch>,
    outcomes: seq<Outcome>,
    checks: Checks)

  /** The results of one full pass, in the order they are queued. */
  ghost function PassResults(d: DownloadView, a: Arrivals): seq<Outcome>
  {
    Finished(d.finalized, FinalizedPoll(a, d.checks)) + Finished(d.fullBlocks, BlockPoll(a, d.checks))
    + Finished(d.witnesses, WitnessPoll(a)) + Finished(d.codes, CodePoll(a))
  }

  /** `e` is `d` after every request has been polled exactly once. */
  ghost predicate Passed(d: DownloadView, a: Arrivals, e: DownloadView)
  {
    && multiset(e.finalized) == multiset(Advanced(d.finalized, FinalizedPoll(a, d.checks)))
    && multiset(e.fullBlocks) == multiset(Advanced(d.fullBlocks, BlockPoll(a, d.checks)))
    && multiset(e.witnesses) == multiset(Advanced(d.witnesses, WitnessPoll(a)))
    && multiset(e.codes) == multiset(Advanced(d.codes, CodePoll(a)))
    && e.outcomes == d.outcomes + PassResults(d, a) && e.checks == d.checks
  }

  /** A poll first drains the queue in order and makes a pass only when it is empty. */
  ghost predicate Polled(d: DownloadView, a: Arrivals, r: Option<Outcome>, e: DownloadView)
  {
    if d.outcomes != [] then r == Some(d.outcomes[0]) && e == d.(outcomes := d.outcomes[1..])
    else
      && Passed(d, a, e.(outcomes := (if r.Some? then [r.value] else []) + e.outcomes))
      && (r.None? ==> e.outcomes == [])
  }

  // ---------- what every poll keeps ----------

  /** Fetches are for the hashes they were started for, and finalized ones ask for 256 ancestors. */
  ghost predicate FetchesOk(d: DownloadView)
  {
    && (forall f :: f in d.fullBlocks ==> f.Right())
    && (forall f :: f in d.finalized ==> f.Right() && f.count == ANCESTOR_COUNT)
  }

  ghost predicate AllOnce(d: DownloadView)
  {
    && Once(d.fullBlocks, BlockKey) && Once(d.codes, CodeKey)
    && Once(d.witnesses, HashKey) && Once(d.finalized, FinalizedKey)
  }

  /** A finished finalized block comes with at least 256 linked ancestors. */
  ghost predicate OutcomeOk(o: Outcome)
  {
    o.FinalizedBlock? ==> |o.ancestors| >= ANCESTOR_COUNT && exists to :: Falling(o.ancestors, o.block.parent, to)
  }

  ghost predicate InFlightOk(d: DownloadView)
  {
    AllOnce(d) && FetchesOk(d) && forall o :: o in d.outcomes ==> OutcomeOk(o)
  }

  lemma PollsKeepKeys(a: Arrivals, checks: Checks)
    ensures KeepsKey(BlockPoll(a, checks), BlockKey) && KeepsKey(FinalizedPoll(a, checks), FinalizedKey)
    ensures KeepsKey(WitnessPoll(a), HashKey) && KeepsKey(CodePoll(a), CodeKey)
  {
  }

  lemma PassKeepsOnce(d: DownloadView, a: Arrivals, e: DownloadView)
    requires AllOnce(d) && Passed(d, a, e)
    ensures AllOnce(e)
  {
    PollsKeepKeys(a, d.checks);
    PassedOnce(d.finalized, FinalizedPoll(a, d.checks), FinalizedKey, e.finalized);
    PassedOnce(d.fullBlocks, BlockPoll(a, d.checks), BlockKey, e.fullBlocks);
    PassedOnce(d.witnesses, WitnessPoll(a), HashKey, e.witnesses);
    PassedOnce(d.codes, CodePoll(a), CodeKey, e.codes);
  }

  /** What the fetches' own polls promise makes every finished finalized block come with its ancestors. */
  lemma FinalizedResultsOk(s: seq<AncestorFetch>, a: Arrivals, checks: Checks)
    requires forall f :: f in s ==> f.Right() && f.count == ANCESTOR_COUNT
    ensures forall f :: f in Advanced(s, FinalizedPoll(a, checks)) ==> f.Right() && f.count == ANCESTOR_COUNT
    ensures forall o :: o in Finished(s, FinalizedPoll(a, checks)) ==> OutcomeOk(o)
  {
    var poll := FinalizedPoll(a, checks);
    PassInvents(s, poll);
    forall f | f in s
      ensures match poll(f) case Done(o) => OutcomeOk(o) case Waits(t) => t.Right() && t.count == ANCESTOR_COUNT
    {
      var hash := f.fetch.hash;
      PollAncestorsSound(f, a.finalized(hash).headers, a.finalized(hash).bodies, a.ranges(hash), checks);
    }
  }

  lemma BlockResultsOk(s: seq<BlockFetch>, a: Arrivals, checks: Checks)
    requires forall f :: f in s ==> f.Right()
    ensures forall f :: f in Advanced(s, BlockPoll(a, checks)) ==> f.Right()
    ensures forall o :: o in Finished(s, BlockPoll(a, checks)) ==> o.FullBlock?
  {
    var poll := BlockPoll(a, checks);
    PassInvents(s, poll);
    forall f | f in s
      ensures poll(f).Waits? ==> poll(f).state.Right()
    {
      PollBlockSound(f, a.blocks(f.hash).headers, a.blocks(f.hash).bodies, checks);
    }
  }

  lemma PassResultsOk(d: DownloadView, a: Arrivals)
    requires forall o :: o in Finished(d.finalized, FinalizedPoll(a, d.checks)) ==> OutcomeOk(o)
    requires forall o :: o in Finished(d.fullBlocks, BlockPoll(a, d.checks)) ==> OutcomeOk(o)
    ensures forall o :: o in PassResults(d, a) ==> OutcomeOk(o)
  {
    PassInvents(d.witnesses, WitnessPoll(a));
    PassInvents(d.codes, CodePoll(a));
  }

  lemma PassKeepsFetches(d: DownloadView, a: Arrivals, e: DownloadView)
    requires FetchesOk(d) && Passed(d, a, e)
    ensures FetchesOk(e) && forall o :: o in PassResults(d, a) ==> OutcomeOk(o)
  {
    FinalizedResultsOk(d.finalized, a, d.checks);
    BlockResultsOk(d.fullBlocks, a, d.checks);
    PassResultsOk(d, a);
    forall f | f in e.finalized
      ensures f.Right() && f.count == ANCESTOR_COUNT
    {
      InBoth(e.finalized, Advanced(d.finalized, FinalizedPoll(a, d.checks)), f);
    }
    forall f | f in e.fullBlocks
      ensures f.Right()
    {
      InBoth(e.fullBlocks, Advanced(d.fullBlocks, BlockPoll(a, d.checks)), f);
    }
  }

  lemma PassKeepsInFlight(d: DownloadView, a: Arrivals, e: DownloadView)
    requires InFlightOk(d) && Passed(d, a, e)
    ensures InFlightOk(e)
  {
    PassKeepsOnce(d, a, e);
    PassKeepsFetches(d, a, e);
  }

  // ---------- nothing asked for is forgotten ----------

  ghost predicate CodeAwaited(d: DownloadView, c: Code)
  {
    c in d.codes || Bytecode(c) in d.outcomes
  }

  ghost predicate WitnessAwaited(d: DownloadView, h: Hash)
  {
    h in d.witnesses || exists w :: WitnessOf(h, w) in d.outcomes
  }

  /** A fetch for the block is in flight, or the block is queued. */
  ghost predicate BlockAwaited(d: DownloadView, h: Hash)
  {
    Fetching(d.fullBlocks, h) || exists o :: o in d.outcomes && o.FullBlock? && HashOf(o.block) == h
  }

  predicate Fetching(s: seq<BlockFetch>, h: Hash)
  {
    exists f :: f in s && f.hash == h
  }

  predicate FetchingFinalized(s: seq<AncestorFetch>, h: Hash)
  {
    exists f :: f in s && f.fetch.hash == h
  }

  // ---------- starting requests ----------

  /** A key that is in flight is not requested again. */
  function AddBlock(d: DownloadView, hash: Hash): DownloadView
  {
    if Fetching(d.fullBlocks, hash) then d else d.(fullBlocks := d.fullBlocks + [BlockFetch(hash, None, None)])
  }

  function AddCode(d: DownloadView, code: Code): DownloadView
  {
    if code in d.codes then d else d.(codes := d.codes + [code])
  }

  function AddWitness(d: DownloadView, hash: Hash): DownloadView
  {
    if hash in d.witnesses then d else d.(witnesses := d.witnesses + [hash])
  }

  function AddFinalized(d: DownloadView, hash: Hash): DownloadView
  {
    if FetchingFinalized(d.finalized, hash) then d
    else d.(finalized := d.finalized + [AncestorFetch(BlockFetch(hash, None, None), ANCESTOR_COUNT, None)])
  }

  lemma BlockRequested(d: DownloadView, hash: Hash)
    ensures Fetching(AddBlock(d, hash).fullBlocks, hash)
  {
    if !Fetching(d.fullBlocks, hash) {
      assert BlockFetch(hash, None, None) in AddBlock(d, hash).fullBlocks;
    }
  }

  lemma FinalizedRequested(d: DownloadView, hash: Hash)
    ensures FetchingFinalized(AddFinalized(d, hash).finalized, hash)
  {
    if !FetchingFinalized(d.finalized, hash) {
      assert AncestorFetch(BlockFetch(hash, None, None), ANCESTOR_COUNT, None) in AddFinalized(d, hash).finalized;
    }
  }

  /** Exactly the given bytecodes that were not in flight have been requested, once each and after the others. */
  ghost predicate CodesAdded(d: DownloadView, codes: set<Code>, e: DownloadView)
  {
    && e == d.(codes := e.codes) && d.codes <= e.codes
    && multiset(e.codes) == multiset(d.codes) + multiset(codes - InFlight(d.codes))
  }

  ghost function InFlight(codes: seq<Code>): set<Code>
  {
    set c | c in codes
  }

  lemma CodeIn(d: DownloadView, codes: set<Code>, e: DownloadView, c: Code)
    requires CodesAdded(d, codes, e)
    ensures c in e.codes <==> c in d.codes || c in codes
  {
    assert c in e.codes <==> c in multiset(e.codes);
    assert c in d.codes <==> c in multiset(d.codes);
  }

  lemma CodesAddedNext(d: DownloadView, codes: set<Code>, e: DownloadView, c: Code)
    requires CodesAdded(d, codes, e) && c !in codes
    ensures CodesAdded(d, codes + {c}, AddCode(e, c))
  {
    var flying, f := InFlight(d.codes), AddCode(e, c);
    CodeIn(d, codes, e, c);
    if c in d.codes {
      assert codes + {c} - flying == codes - flying;
    } else {
      assert codes + {c} - flying == codes - flying + {c};
      assert multiset(f.codes) == multiset(e.codes) + multiset{c};
    }
  }

  lemma InBoth<R>(s: seq<R>, t: seq<R>, x: R)
    requires multiset(s) == multiset(t) && x in s
    ensures x in t
  {
    assert x in multiset(s);
  }

  lemma PassKeepsCode(d: DownloadView, a: Arrivals, e: DownloadView, c: Code)
    requires Passed(d, a, e) && CodeAwaited(d, c)
    ensures CodeAwaited(e, c)
  {
    if c in d.codes {
      PassConserves(d.codes, CodePoll(a), c);
      if CodePoll(a)(c).Waits? {
        InBoth(Advanced(d.codes, CodePoll(a)), e.codes, c);
      }
    }
  }

  lemma PassKeepsWitness(d: DownloadView, a: Arrivals, e: DownloadView, h: Hash)
    requires Passed(d, a, e) && WitnessAwaited(d, h)
    ensures WitnessAwaited(e, h)
  {
    if h in d.witnesses {
      PassConserves(d.witnesses, WitnessPoll(a), h);
      if WitnessPoll(a)(h).Waits? {
        InBoth(Advanced(d.witnesses, WitnessPoll(a)), e.witnesses, h);
      } else {
        assert WitnessOf(h, a.witnesses(h).value) in e.outcomes;
      }
    }
  }

  lemma PassKeepsBlock(d: DownloadView, a: Arrivals, e: DownloadView, h: Hash)
    requires FetchesOk(d) && Passed(d, a, e) && BlockAwaited(d, h)
    ensures BlockAwaited(e, h)
  {
    if Fetching(d.fullBlocks, h) {
      var f :| f in d.fullBlocks && f.hash == h;
      var poll := BlockPoll(a, d.checks);
      PollBlockSound(f, a.blocks(h).headers, a.blocks(h).bodies, d.checks);
      PassConserves(d.fullBlocks, poll, f);
      match poll(f)
      case Waits(t) => InBoth(Advanced(d.fullBlocks, poll), e.fullBlocks, t);
      case Done(o) => assert o in e.outcomes;
    }
  }

  /** A poll delivers at most one awaited item, and whatever it does not deliver stays awaited. */
  lemma PollKeepsAwaited(d: DownloadView, a: Arrivals, r: Option<Outcome>, e: DownloadView)
    requires FetchesOk(d) && Polled(d, a, r, e)
    ensures forall c :: CodeAwaited(d, c) ==> CodeAwaited(e, c) || r == Some(Bytecode(c))
    ensures forall h :: WitnessAwaited(d, h) ==>
                          WitnessAwaited(e, h) || (r.Some? && r.value.WitnessOf? && r.value.hash == h)
    ensures forall h :: BlockAwaited(d, h) ==>
                          BlockAwaited(e, h) || (r.Some? && r.value.FullBlock? && HashOf(r.value.block) == h)
  {
    if d.outcomes != [] {
      assert d.outcomes == [d.outcomes[0]] + d.outcomes[1..];
    } else {
      var full := e.(outcomes := (if r.Some? then [r.value] else []) + e.outcomes);
      forall c | CodeAwaited(d, c) ensures CodeAwaited(full, c) {
        PassKeepsCode(d, a, full, c);
      }
      forall h | WitnessAwaited(d, h) ensures WitnessAwaited(full, h) {
        PassKeepsWitness(d, a, full, h);
      }
      forall h | BlockAwaited(d, h) ensures BlockAwaited(full, h) {
        PassKeepsBlock(d, a, full, h);
      }
    }
  }

  // ---------- what has arrived is delivered ----------

  /** The answer to a finalized request, in terms of what has arrived for its hash. */
  ghost function AncestorsNow(d: DownloadView, a: Arrivals, f: AncestorFetch)
      : Polling<AncestorFetch, (Header, seq<Header>)>
  {
    var x := a.finalized(f.fetch.hash);
    PollAncestors(f, x.headers, x.bodies, a.ranges(f.fetch.hash), d.checks)
  }

  ghost function BlockNow(d: DownloadView, a: Arrivals, f: BlockFetch): Polling<BlockFetch, (Header, Body)>
  {
    PollBlock(f, a.blocks(f.hash).headers, a.blocks(f.hash).bodies, d.checks)
  }

  /** A finalized fetch that can complete is delivered with its ancestors and leaves; otherwise it goes on. */
  lemma FinalizedDelivered(d: DownloadView, a: Arrivals, e: DownloadView, f: AncestorFetch)
    requires AllOnce(d) && FetchesOk(d) && Passed(d, a, e) && f in d.finalized
    ensures match AncestorsNow(d, a, f)
            case Done(r) =>
              && FinalizedBlock(r.0, r.1) in e.outcomes && HashOf(r.0) == f.fetch.hash
              && !FetchingFinalized(e.finalized, f.fetch.hash)
            case Waits(t) => t in e.finalized && t.fetch.hash == f.fetch.hash
  {
    var poll, hash := FinalizedPoll(a, d.checks), f.fetch.hash;
    PollAncestorsSound(f, a.finalized(hash).headers, a.finalized(hash).bodies, a.ranges(hash), d.checks);
    PassConserves(d.finalized, poll, f);
    match AncestorsNow(d, a, f)
    case Waits(t) => InBoth(Advanced(d.finalized, poll), e.finalized, t);
    case Done(r) =>
      assert poll(f) == Done(FinalizedBlock(r.0, r.1));
      forall g | g in e.finalized && g.fetch.hash == hash
        ensures false
      {
        FinalizedLeft(d, a, e, f, g);
      }
  }

  /** Whatever is in flight after a pass comes from a request for the same hash that did not complete. */
  lemma FinalizedLeft(d: DownloadView, a: Arrivals, e: DownloadView, f: AncestorFetch, g: AncestorFetch)
    requires AllOnce(d) && FetchesOk(d) && Passed(d, a, e) && f in d.finalized && g in e.finalized
    requires g.fetch.hash == f.fetch.hash
    ensures AncestorsNow(d, a, f) == Waits(g)
  {
    var poll := FinalizedPoll(a, d.checks);
    InBoth(e.finalized, Advanced(d.finalized, poll), g);
    PassInvents(d.finalized, poll);
    var r :| r in d.finalized && poll(r) == Waits(g);
    PollAncestorsSound(r, a.finalized(r.fetch.hash).headers, a.finalized(r.fetch.hash).bodies,
                       a.ranges(r.fetch.hash), d.checks);
    assert FinalizedKey(r) == FinalizedKey(f);
  }

  /** A block fetch that can complete is delivered and leaves; otherwise it goes on. */
  lemma BlockDelivered(d: DownloadView, a: Arrivals, e: DownloadView, f: BlockFetch)
    requires AllOnce(d) && FetchesOk(d) && Passed(d, a, e) && f in d.fullBlocks
    ensures match BlockNow(d, a, f)
            case Done(r) =>
              FullBlock(r.0) in e.outcomes && HashOf(r.0) == f.hash && !Fetching(e.fullBlocks, f.hash)
            case Waits(t) => t in e.fullBlocks && t.hash == f.hash
  {
    var poll, hash := BlockPoll(a, d.checks), f.hash;
    PollBlockSound(f, a.blocks(hash).headers, a.blocks(hash).bodies, d.checks);
    PassConserves(d.fullBlocks, poll, f);
    match BlockNow(d, a, f)
    case Waits(t) => InBoth(Advanced(d.fullBlocks, poll), e.fullBlocks, t);
    case Done(r) =>
      assert poll(f) == Done(FullBlock(r.0));
      forall g | g in e.fullBlocks && g.hash == hash
        ensures false
      {
        BlockLeft(d, a, e, f, g);
      }
  }

  lemma BlockLeft(d: DownloadView, a: Arrivals, e: DownloadView, f: BlockFetch, g: BlockFetch)
    requires AllOnce(d) && FetchesOk(d) && Passed(d, a, e) && f in d.fullBlocks && g in e.fullBlocks
    requires g.hash == f.hash
    ensures BlockNow(d, a, f) == Waits(g)
  {
    var poll := BlockPoll(a, d.checks);
    InBoth(e.fullBlocks, Advanced(d.fullBlocks, poll), g);
    PassInvents(d.fullBlocks, poll);
    var r :| r in d.fullBlocks && poll(r) == Waits(g);
    PollBlockSound(r, a.blocks(r.hash).headers, a.blocks(r.hash).bodies, d.checks);
    assert BlockKey(r) == BlockKey(f);
  }

  /** A witness that has arrived is delivered, that very one, and its request leaves; otherwise it goes on. */
  lemma WitnessDelivered(d: DownloadView, a: Arrivals, e: DownloadView, h: Hash)
    requires Passed(d, a, e) && h in d.witnesses
    ensures match a.witnesses(h)
            case Some(w) => WitnessOf(h, w) in e.outcomes && h !in e.witnesses
            case None => h in e.witnesses
  {
    var poll := WitnessPoll(a);
    PassConserves(d.witnesses, poll, h);
    PassInvents(d.witnesses, poll);
    if h in e.witnesses {
      InBoth(e.witnesses, Advanced(d.witnesses, poll), h);
    } else if a.witnesses(h).None? {
      InBoth(Advanced(d.witnesses, poll), e.witnesses, h);
    }
  }

  /** A bytecode that has arrived is delivered and its request leaves; otherwise it goes on. */
  lemma CodeDelivered(d: DownloadView, a: Arrivals, e: DownloadView, c: Code)
    requires Passed(d, a, e) && c in d.codes
    ensures if a.codes(c) then Bytecode(c) in e.outcomes && c !in e.codes else c in e.codes
  {
    var poll := CodePoll(a);
    PassConserves(d.codes, poll, c);
    PassInvents(d.codes, poll);
    if c in e.codes {
      InBoth(e.codes, Advanced(d.codes, poll), c);
    } else if !a.codes(c) {
      InBoth(Advanced(d.codes, poll), e.codes, c);
    }
  }

  /** The outcome is what has arrived for a request in flight. */
  ghost predicate Arrived(d: DownloadView, a: Arrivals, o: Outcome)
  {
    match o
    case FinalizedBlock(block, ancestors) =>
      exists f :: f in d.finalized && AncestorsNow(d, a, f) == Done((block, ancestors))
    case FullBlock(block) => exists f, body :: f in d.fullBlocks && BlockNow(d, a, f) == Done((block, body))
    case WitnessOf(h, w) => h in d.witnesses && a.witnesses(h) == Some(w)
    case Bytecode(c) => c in d.codes && a.codes(c)
  }

  /** A pass queues nothing but what has arrived for the requests in flight. */
  lemma OnlyArrivals(d: DownloadView, a: Arrivals, o: Outcome)
    requires o in PassResults(d, a)
    ensures Arrived(d, a, o)
  {
    PassInvents(d.finalized, FinalizedPoll(a, d.checks));
    PassInvents(d.fullBlocks, BlockPoll(a, d.checks));
    PassInvents(d.witnesses, WitnessPoll(a));
    PassInvents(d.codes, CodePoll(a));
    if o in Finished(d.finalized, FinalizedPoll(a, d.checks)) {
      var f :| f in d.finalized && FinalizedPoll(a, d.checks)(f) == Done(o);
      assert AncestorsNow(d, a, f) == Done((o.block, o.ancestors));
    } else if o in Finished(d.fullBlocks, BlockPoll(a, d.checks)) {
      var f :| f in d.fullBlocks && BlockPoll(a, d.checks)(f) == Done(o);
      assert BlockNow(d, a, f) == Done((o.block, BlockNow(d, a, f).result.1));
    }
  }

  /** What a poll yields and queues: everything there was, and on an empty queue everything that has arrived. */
  lemma PollDelivers(d: DownloadView, a: Arrivals, r: Option<Outcome>, e: DownloadView, o: Outcome)
    requires AllOnce(d) && FetchesOk(d) && Polled(d, a, r, e)
    ensures r == Some(o) || o in e.outcomes <==> o in d.outcomes || (d.outcomes == [] && Arrived(d, a, o))
  {
    if d.outcomes != [] {
      assert d.outcomes == [d.outcomes[0]] + d.outcomes[1..];
    } else {
      var full := e.(outcomes := (if r.Some? then [r.value] else []) + e.outcomes);
      if o in full.outcomes {
        OnlyArrivals(d, a, o);
      }
      if Arrived(d, a, o) {
        ArrivedIsQueued(d, a, full, o);
      }
    }
  }

  lemma ArrivedIsQueued(d: DownloadView, a: Arrivals, e: DownloadView, o: Outcome)
    requires AllOnce(d) && FetchesOk(d) && Passed(d, a, e) && Arrived(d, a, o)
    ensures o in e.outcomes
  {
    match o
    case FinalizedBlock(block, ancestors) =>
      var f :| f in d.finalized && AncestorsNow(d, a, f) == Done((block, ancestors));
      FinalizedDelivered(d, a, e, f);
    case FullBlock(block) =>
      var f, body :| f in d.fullBlocks && BlockNow(d, a, f) == Done((block, body));
      BlockDelivered(d, a, e, f);
    case WitnessOf(h, w) => WitnessDelivered(d, a, e, h);
    case Bytecode(c) => CodeDelivered(d, a, e, c);
  }

  class EngineDownloader {
    const checks: Checks
    var fullBlocks: seq<BlockFetch>
    var codes: seq<Code>
    var witnesses: seq<Hash>
    var finalized: seq<AncestorFetch>
    var outcomes: seq<Outcome>

    ghost function View(): DownloadView
      reads this
    {
      DownloadView(fullBlocks, codes, witnesses, finalized, outcomes, checks)
    }

    ghost predicate Valid()
      reads this
    {
      InFlightOk(View())
    }

    constructor (checks: Checks)
      ensures Valid() && View() == DownloadView([], [], [], [], [], checks)
    {
      this.checks := checks;
      fullBlocks, codes, witnesses, finalized, outcomes := [], [], [], [], [];
    }

    method DownloadFullBlock(hash: Hash)
      requires Valid()
      modifies this`fullBlocks
      ensures Valid() && View() == AddBlock(old(View()), hash)
    {
      if Fetching(fullBlocks, hash) {
        return;
      }
      OnceStarted(fullBlocks, BlockKey, BlockFetch(hash, None, None));
      fullBlocks := fullBlocks + [BlockFetch(hash, None, None)];
    }

    method DownloadBytecode(code: Code)
      requires Valid()
      modifies this`codes
      ensures Valid() && View() == AddCode(old(View()), code)
    {
      if code in codes {
        return;
      }
      OnceStarted(codes, CodeKey, code);
      codes := codes + [code];
    }

    method DownloadWitness(hash: Hash)
      requires Valid()
      modifies this`witnesses
      ensures Valid() && View() == AddWitness(old(View()), hash)
    {
      if hash in witnesses {
        return;
      }
      OnceStarted(witnesses, HashKey, hash);
      witnesses := witnesses + [hash];
    }

    method DownloadFinalizedWithAncestors(hash: Hash)
      requires Valid()
      modifies this`finalized
      ensures Valid() && View() == AddFinalized(old(View()), hash)
    {
      if FetchingFinalized(finalized, hash) {
        return;
      }
      var request := AncestorFetch(BlockFetch(hash, None, None), ANCESTOR_COUNT, None);
      OnceStarted(finalized, FinalizedKey, request);
      finalized := finalized + [request];
    }

    /** Polls every request in flight once and queues the results. */
    method Pass(a: Arrivals)
      modifies this
      ensures Passed(old(View()), a, View())
    {
      var done1, done2, done3, done4;
      finalized, done1 := AdvanceAll(finalized, FinalizedPoll(a, checks));
      fullBlocks, done2 := AdvanceAll(fullBlocks, BlockPoll(a, checks));
      witnesses, done3 := AdvanceAll(witnesses, WitnessPoll(a));
      codes, done4 := AdvanceAll(codes, CodePoll(a));
      outcomes := outcomes + (done1 + done2 + done3 + done4);
    }

    method Poll(a: Arrivals) returns (r: Option<Outcome>)
      requires Valid()
      modifies this
      ensures Valid() && Polled(old(View()), a, r, View()) && (r.Some? ==> OutcomeOk(r.value))
      ensures r.Some? && r.value.FinalizedBlock? ==> |r.value.ancestors| >= 256
    {
      r := None;
      if outcomes == [] {
        ghost var d := View();
        Pass(a);
        PassKeepsInFlight(d, a, View());
      }
      if outcomes != [] {
        ghost var full := outcomes;
        r := Some(outcomes[0]);
        outcomes := outcomes[1..];
        assert full == [r.value] + outcomes;
      }
      assert r.None? ==> [] + outcomes == outcomes;
    }
  }
}
