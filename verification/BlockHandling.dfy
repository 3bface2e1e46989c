/**
 Handling a block from insertion to answer: what is connected along with it, what is then known
 about everything that waited, and what may be answered.
 */
module BlockHandling {
  import opened Blocks
  import opened ChainSwitch
  import opened CanonicalIndex
  import opened InvalidAncestors
  import opened B = BlockBuffers
  import opened TreeSpecs

  // ---------- connecting what waited ----------

  /** One attempt to connect a buffered block: the insertion, and what followed it. */
  datatype Connection = Connection(
    result: InsertResult,
    mid: TreeView,
    update: Option<NewCanonicalChain>,
    after: TreeView)

  /** What was taken out of the buffer to be connected, the buffer then, and the attempts made. */
  datatype ConnectLog = ConnectLog(
    removed: seq<(Header, Witness)>,
    collected: BufferView,
    connections: seq<Connection>)

  /** The block is marked as failed and recorded in the cache. */
  ghost predicate MarksFailed(t: TreeView, h: Hash, u: TreeView)
  {
    u == WithFailure(t, h).(cache := u.cache) && h in u.cache.entries && t.cache.dropped <= u.cache.dropped
  }

  /** A rejected block is marked as failed, and the sync target becomes the head once it is connected. */
  ghost predicate AfterConnect(target: Option<Hash>, child: Header, c: Connection)
  {
    var hash := HashOf(child);
    if c.result.Rejected? then MarksFailed(c.mid, hash, c.after)
    else if c.result.Connected? && target == Some(hash) then
      c.after == Switched(c.mid, hash, c.update) && Justly(c.mid, hash, c.update)
    else c.after == c.mid
  }

  ghost predicate ConnectEffect(rules: Rules, limit: nat, target: Option<Hash>, a: TreeView, child: (Header, Witness),
                                c: Connection)
  {
    && InsertEffect(rules, a, child.0, Some(child.1), c.result, c.mid, limit)
    && AfterConnect(target, child.0, c)
  }

  lemma ConnectDone(rules: Rules, limit: nat, target: Option<Hash>, a: TreeView, child: Header, wit: Witness,
                    c: Connection)
    requires InsertEffect(rules, a, child, Some(wit), c.result, c.mid, limit) && AfterConnect(target, child, c)
    ensures ConnectEffect(rules, limit, target, a, (child, wit), c)
  {
  }

  ghost function TreeAfter(a: TreeView, connections: seq<Connection>): TreeView
  {
    if connections == [] then a else connections[|connections| - 1].after
  }

  /** No attempt so far has ended in a fatal error. */
  predicate Alive(connections: seq<Connection>)
  {
    connections == [] || !connections[|connections| - 1].result.Fatal?
  }

  /** The `i`th attempt is made on the tree the one before left, which was not fatal. */
  ghost predicate ConnectAt(rules: Rules, limit: nat, target: Option<Hash>, a: TreeView,
                            removed: seq<(Header, Witness)>, connections: seq<Connection>, i: nat)
    requires i < |connections| <= |removed|
  {
    Alive(connections[..i]) &&
    ConnectEffect(rules, limit, target, TreeAfter(a, connections[..i]), removed[i], connections[i])
  }

  /** The blocks taken out are tried in order, up to a fatal error. */
  ghost predicate Connecting(rules: Rules, limit: nat, target: Option<Hash>, a: TreeView,
                             removed: seq<(Header, Witness)>, connections: seq<Connection>)
  {
    && |connections| <= |removed|
    && forall i :: 0 <= i < |connections| ==> ConnectAt(rules, limit, target, a, removed, connections, i)
  }

  /**
   Connecting what waited for `root`: the ready blocks linked below it leave the buffer, parents
   first, and all of them are tried unless one ends in a fatal error.
   */
  ghost predicate Connects(rules: Rules, limit: nat, target: Option<Hash>, a: TreeView, root: Hash, log: ConnectLog,
                           ok: bool, b: TreeView)
  {
    var start := a.(buffer := log.collected);
    && Collected(a.buffer, {root}, log.removed, log.collected) && RemovedDepthFirst(a.buffer, root, log.removed)
    && B.Coherent(log.collected, limit)
    && Connecting(rules, limit, target, start, log.removed, log.connections)
    && b == TreeAfter(start, log.connections)
    && ok == Alive(log.connections) && (ok ==> |log.connections| == |log.removed|)
  }

  lemma ConnectsDone(rules: Rules, limit: nat, target: Option<Hash>, a: TreeView, root: Hash, start: TreeView,
                     removed: seq<(Header, Witness)>, connections: seq<Connection>)
    requires start == a.(buffer := start.buffer) && B.Coherent(start.buffer, limit)
    requires Collected(a.buffer, {root}, removed, start.buffer) && RemovedDepthFirst(a.buffer, root, removed)
    requires Connecting(rules, limit, target, start, removed, connections)
    requires Alive(connections) ==> |connections| == |removed|
    ensures Connects(rules, limit, target, a, root, ConnectLog(removed, start.buffer, connections), Alive(connections),
                     TreeAfter(start, connections))
  {
  }

  lemma SameAttempt(rules: Rules, limit: nat, target: Option<Hash>, a: TreeView, removed: seq<(Header, Witness)>,
                    connections: seq<Connection>, n: nat, i: nat)
    requires i < n <= |connections| <= |removed|
    ensures ConnectAt(rules, limit, target, a, removed, connections, i) <==>
            ConnectAt(rules, limit, target, a, removed, connections[..n], i)
  {
    assert connections[..n][..i] == connections[..i];
  }

  lemma ConnectingNext(rules: Rules, limit: nat, target: Option<Hash>, a: TreeView, removed: seq<(Header, Witness)>,
                       connections: seq<Connection>, c: Connection)
    requires Connecting(rules, limit, target, a, removed, connections) && |connections| < |removed|
    requires Alive(connections)
    requires ConnectEffect(rules, limit, target, TreeAfter(a, connections), removed[|connections|], c)
    ensures Connecting(rules, limit, target, a, removed, connections + [c])
    ensures TreeAfter(a, connections + [c]) == c.after && Alive(connections + [c]) == !c.result.Fatal?
  {
    var all := connections + [c];
    assert all[..|connections|] == connections;
    forall i | 0 <= i < |connections|
      ensures ConnectAt(rules, limit, target, a, removed, all, i)
    {
      SameAttempt(rules, limit, target, a, removed, all, |connections|, i);
    }
  }

  lemma ConnectingBefore(rules: Rules, limit: nat, target: Option<Hash>, a: TreeView, removed: seq<(Header, Witness)>,
                         connections: seq<Connection>)
    requires Connecting(rules, limit, target, a, removed, connections) && connections != []
    ensures var before, last := connections[..|connections| - 1], |connections| - 1;
            Connecting(rules, limit, target, a, removed, before) && Alive(before)
  {
    var last := |connections| - 1;
    assert ConnectAt(rules, limit, target, a, removed, connections, last);
    forall i | 0 <= i < last
      ensures ConnectAt(rules, limit, target, a, removed, connections[..last], i)
    {
      SameAttempt(rules, limit, target, a, removed, connections, last, i);
    }
  }

  /** The sync target becomes the head as soon as it is connected, if memory allows. */
  lemma ConnectedTargetIsHead(rules: Rules, limit: nat, target: Option<Hash>, a: TreeView, child: (Header, Witness),
                              c: Connection)
    requires ConnectEffect(rules, limit, target, a, child, c) && HashOf(child.0) !in a.chain.blocks
    requires HashOf(child.0) in c.after.chain.blocks && target == Some(HashOf(child.0))
    requires Sound(c.mid.chain, c.mid.head) && Switchable(c.mid.chain.blocks, c.mid.head.hash, HashOf(child.0))
    ensures c.after.head.hash == HashOf(child.0)
  {
  }

  lemma ConnectGrows(rules: Rules, limit: nat, target: Option<Hash>, a: TreeView, child: (Header, Witness),
                     c: Connection)
    requires ConnectEffect(rules, limit, target, a, child, c)
    ensures Grows(rules, a, c.after)
  {
    InsertGrows(rules, a, child.0, Some(child.1), c.result, c.mid, limit);
    if c.result.Connected? && target == Some(HashOf(child.0)) {
      SwitchGrows(rules, c.mid, HashOf(child.0), c.update);
    } else {
      SameBufferGrows(rules, c.mid, c.after);
    }
    GrowsTransitive(rules, a, c.mid, c.after);
  }

  lemma ConnectGated(rules: Rules, limit: nat, target: Option<Hash>, a: TreeView, child: (Header, Witness),
                     c: Connection)
    requires ConnectEffect(rules, limit, target, a, child, c) && Gated(a) && child.1.codes <= a.store
    ensures Gated(c.after)
  {
    InsertGated(rules, a, child.0, Some(child.1), c.result, c.mid, limit);
    if c.result.Connected? && target == Some(HashOf(child.0)) {
      SwitchGrows(rules, c.mid, HashOf(child.0), c.update);
    }
  }

  lemma GrowsSelf(rules: Rules, a: TreeView)
    ensures Grows(rules, a, a)
  {
  }

  lemma {:induction false} ConnectingGrows(rules: Rules, limit: nat, target: Option<Hash>, a: TreeView,
                                           removed: seq<(Header, Witness)>, connections: seq<Connection>)
    requires Connecting(rules, limit, target, a, removed, connections)
    ensures Grows(rules, a, TreeAfter(a, connections))
    decreases |connections|
  {
    if connections == [] {
      GrowsSelf(rules, a);
    } else {
      var before, last := connections[..|connections| - 1], |connections| - 1;
      ConnectingBefore(rules, limit, target, a, removed, connections);
      assert ConnectAt(rules, limit, target, a, removed, connections, last);
      ConnectingGrows(rules, limit, target, a, removed, before);
      ConnectGrows(rules, limit, target, TreeAfter(a, before), removed[last], connections[last]);
      GrowsTransitive(rules, a, TreeAfter(a, before), connections[last].after);
    }
  }

  lemma {:induction false} ConnectingGated(rules: Rules, limit: nat, target: Option<Hash>, a: TreeView,
                                           removed: seq<(Header, Witness)>, connections: seq<Connection>)
    requires Connecting(rules, limit, target, a, removed, connections) && Gated(a)
    requires forall x :: x in removed ==> x.1.codes <= a.store
    ensures Gated(TreeAfter(a, connections))
    decreases |connections|
  {
    if connections != [] {
      var before, last := connections[..|connections| - 1], |connections| - 1;
      ConnectingBefore(rules, limit, target, a, removed, connections);
      assert ConnectAt(rules, limit, target, a, removed, connections, last);
      ConnectingGated(rules, limit, target, a, removed, before);
      ConnectingGrows(rules, limit, target, a, removed, before);
      assert removed[last] in removed;
      ConnectGated(rules, limit, target, TreeAfter(a, before), removed[last], connections[last]);
    }
  }

  lemma CrashEnds(rules: Rules, limit: nat, target: Option<Hash>, a: TreeView, removed: seq<(Header, Witness)>,
                  connections: seq<Connection>)
    requires Connecting(rules, limit, target, a, removed, connections) && !Alive(connections)
    ensures CrashedSince(rules, TreeAfter(a, connections).executed, |a.executed|)
  {
    var before, last := connections[..|connections| - 1], |connections| - 1;
    var child := removed[last];
    assert ConnectAt(rules, limit, target, a, removed, connections, last);
    ConnectingBefore(rules, limit, target, a, removed, connections);
    ConnectingGrows(rules, limit, target, a, removed, before);
    FatalIsCrash(rules, TreeAfter(a, before), child.0, Some(child.1), connections[last].result, connections[last].mid,
                 limit);
  }

  // ---------- settling ----------

  /**
   Nothing more can be done for a block: it is in memory, it failed after the first `since` failures,
   or its parent is not in memory.
   */
  ghost predicate Settled(t: TreeView, since: nat, h: Hash)
  {
    h in t.chain.blocks || LoggedSince(t.failures, since, h) || (h.HashOf? && h.header.parent !in t.chain.blocks)
  }

  /** Every block that was ready and linked below `root` is settled. */
  ghost predicate SettledBelow(v: BufferView, root: Hash, t: TreeView, since: nat)
  {
    forall h :: h in v.blocks && Ready(v, h) && BelowAny(v.children, {root}, h) ==> Settled(t, since, h)
  }

  /** The first `i` blocks of a list are settled. */
  ghost predicate SettledUpTo(removed: seq<(Header, Witness)>, i: nat, t: TreeView, since: nat)
  {
    forall k :: 0 <= k < i && k < |removed| ==> Settled(t, since, HashOf(removed[k].0))
  }

  /** Because parents come first, connecting the next block unsettles none before it. */
  lemma SettleNext(removed: seq<(Header, Witness)>, i: nat, a: TreeView, b: TreeView, since: nat)
    requires i < |removed| && Ordered(removed) && SettledUpTo(removed, i, a, since) && a.failures <= b.failures
    requires a.chain.blocks.Keys <= b.chain.blocks.Keys <= a.chain.blocks.Keys + {HashOf(removed[i].0)}
    requires Settled(b, since, HashOf(removed[i].0))
    ensures SettledUpTo(removed, i + 1, b, since)
  {
    forall k | 0 <= k < i
      ensures Settled(b, since, HashOf(removed[k].0))
    {
      assert removed[k].0.parent != HashOf(removed[i].0);
      if LoggedSince(a.failures, since, HashOf(removed[k].0)) {
        LoggedStays(a.failures, b.failures, since, HashOf(removed[k].0));
      }
    }
  }

  lemma ConnectSettles(rules: Rules, limit: nat, target: Option<Hash>, a: TreeView, child: (Header, Witness),
                       c: Connection, since: nat)
    requires ConnectEffect(rules, limit, target, a, child, c) && !c.result.Fatal? && since <= |a.failures|
    ensures Settled(c.after, since, HashOf(child.0)) && a.failures <= c.after.failures
    ensures a.chain.blocks.Keys <= c.after.chain.blocks.Keys <= a.chain.blocks.Keys + {HashOf(child.0)}
  {
    if c.result.Rejected? {
      assert c.after.failures[|a.failures|] == HashOf(child.0);
    }
  }

  lemma {:induction false} ConnectingSettles(rules: Rules, limit: nat, target: Option<Hash>, a: TreeView,
                                             removed: seq<(Header, Witness)>, connections: seq<Connection>)
    requires Connecting(rules, limit, target, a, removed, connections) && Ordered(removed) && Alive(connections)
    ensures SettledUpTo(removed, |connections|, TreeAfter(a, connections), |a.failures|)
    ensures a.failures <= TreeAfter(a, connections).failures
    decreases |connections|
  {
    if connections != [] {
      var before, last := connections[..|connections| - 1], |connections| - 1;
      ConnectingBefore(rules, limit, target, a, removed, connections);
      assert ConnectAt(rules, limit, target, a, removed, connections, last);
      ConnectingSettles(rules, limit, target, a, removed, before);
      ConnectSettles(rules, limit, target, TreeAfter(a, before), removed[last], connections[last], |a.failures|);
      SettleNext(removed, last, TreeAfter(a, before), connections[last].after, |a.failures|);
    }
  }

  /** Unless a fatal error got in the way, everything that was ready and linked below the root is settled. */
  lemma ConnectsSettles(rules: Rules, limit: nat, target: Option<Hash>, a: TreeView, root: Hash, log: ConnectLog,
                        ok: bool, b: TreeView)
    requires Connects(rules, limit, target, a, root, log, ok, b)
    ensures if ok then SettledBelow(a.buffer, root, b, |a.failures|)
            else CrashedSince(rules, b.executed, |a.executed|)
  {
    var start := a.(buffer := log.collected);
    if ok {
      ConnectingSettles(rules, limit, target, start, log.removed, log.connections);
      forall h | h in a.buffer.blocks && Ready(a.buffer, h) && BelowAny(a.buffer.children, {root}, h)
        ensures Settled(b, |a.failures|, h)
      {
        assert h in HashSet(log.removed);
      }
    } else {
      CrashEnds(rules, limit, target, start, log.removed, log.connections);
    }
  }

  lemma ConnectsGrows(rules: Rules, limit: nat, target: Option<Hash>, a: TreeView, root: Hash, log: ConnectLog,
                      ok: bool, b: TreeView)
    requires Connects(rules, limit, target, a, root, log, ok, b)
    ensures Grows(rules, a, b)
  {
    var start := a.(buffer := log.collected);
    ConnectingGrows(rules, limit, target, start, log.removed, log.connections);
    ConnectsSettles(rules, limit, target, a, root, log, ok, b);
    CollectedKeeps(a.buffer, {root}, log.removed, log.collected);
    forall h | h in a.buffer.blocks && h.HashOf? && h.header.parent in a.chain.blocks
      ensures StillBuffered(a.buffer, b.buffer, h) || Gone(rules, b, MarkOf(a), h)
    {
      if h !in HashSet(log.removed) {
        assert StillBuffered(a.buffer, log.collected, h);
      } else if ok {
        assert Settled(b, |a.failures|, h);
      }
    }
  }

  lemma ConnectsGated(rules: Rules, limit: nat, target: Option<Hash>, a: TreeView, root: Hash, log: ConnectLog,
                      ok: bool, b: TreeView)
    requires Connects(rules, limit, target, a, root, log, ok, b) && Gated(a)
    ensures Gated(b)
  {
    CollectedComplete(a, {root}, log.removed, log.collected);
    ConnectingGated(rules, limit, target, a.(buffer := log.collected), log.removed, log.connections);
  }

  // ---------- answers ----------

  /**
   What may be answered about a block: valid only if it is in memory, and a latest valid hash
   other than zero only if it is the block's highest ancestor that is not invalid.
   */
  ghost predicate AnswerOk(t: TreeView, hash: Hash, status: PayloadStatus)
  {
    match status
    case PayloadValid(h) => h == hash && h in t.chain.blocks
    case Syncing => true
    case PayloadInvalid(latest) =>
      && Invalid(t.failed, hash)
      && (latest.Some? && latest.value != ZERO ==> IsLatestValid(t.chain.blocks, t.failed, hash, latest.value))
  }

  /** What may be said about a block; an error only if an execution after the first `since` ones was fatal. */
  ghost predicate Justified(rules: Rules, since: nat, t: TreeView, hash: Hash, outcome: TreeOutcome<PayloadStatus>)
  {
    match outcome
    case Outcome(status, _) => AnswerOk(t, hash, status)
    case Failure => CrashedSince(rules, t.executed, since)
  }

  /** Whether buffered descendants are looked at: after a new block, and after a known one only for a payload. */
  predicate Follows(r: InsertResult, connectSeen: bool)
  {
    r.Connected? || (r.AlreadySeen? && connectSeen)
  }

  /** The answer, and the event that goes with it, for each result of the insertion. */
  ghost predicate AnswerFor(block: Header, r: InsertResult, connectSeen: bool, target: Option<Hash>,
                            outcome: TreeOutcome<PayloadStatus>)
  {
    var hash := HashOf(block);
    match r
    case NoWitness => outcome == Outcome(Syncing, Some(DownloadWitness(hash)))
    case Disconnected(missing) => outcome == Outcome(Syncing, Some(DownloadBlock(missing.hash)))
    case Rejected => outcome.Outcome? && outcome.status.PayloadInvalid? && outcome.event.None?
    case Fatal => outcome.Failure?
    case _ =>
      || outcome == Outcome(PayloadValid(hash),
                            if target == Some(hash) && Follows(r, connectSeen) then Some(Canonicalize(hash)) else None)
      || (outcome.Failure? && Follows(r, connectSeen))
  }

  /**
   A rejected block is marked as failed, and its answer names what is found from its parent: the
   parent itself if that is in memory.
   */
  ghost predicate Rejects(mid: TreeView, block: Header, status: PayloadStatus, b: TreeView)
  {
    && MarksFailed(mid, HashOf(block), b) && status.PayloadInvalid? && AnswerOk(b, HashOf(block), status)
    && exists walked :: FindsForRejected(mid, block, status.latestValid, walked, b.cache)
  }

  lemma RejectsWith(mid: TreeView, block: Header, latest: Option<Hash>, walked: CacheView, b: TreeView)
    requires b == WithFailure(mid, HashOf(block)).(cache := b.cache)
    requires FindsForRejected(mid, block, latest, walked, b.cache) && AnswerOk(b, HashOf(block), PayloadInvalid(latest))
    ensures Rejects(mid, block, PayloadInvalid(latest), b)
  {
  }

  ghost predicate FindsForRejected(mid: TreeView, block: Header, latest: Option<Hash>, walked: CacheView,
                                   after: CacheView)
  {
    && Walked(mid.cache, block.parent, walked) && Finds(walked.entries, mid.chain.blocks, block.parent, latest)
    && Recorded(walked, HashOf(block), BlockWithParent(HashOf(block), block.parent), after)
  }

  /**
   How a block was handled: known to be invalid, or inserted, with everything that was then connected.
   Either way a hash was looked up in the invalid-header cache first, which left the cache as noted.
   */
  datatype HandleLog =
    | Refused(check: Hash, checked: CacheView)
    | Tried(check: Hash, checked: CacheView, result: InsertResult, inserted: TreeView, joined: ConnectLog)

  /**
   The hash looked up: the first unbuffered one below a buffered block; otherwise a downloaded block
   itself, and a payload's parent.
   */
  ghost predicate ChecksAt(buffered: map<Hash, Header>, block: Header, isPayload: bool, check: Hash)
  {
    if HashOf(block) in buffered then Gap(buffered, HashOf(block), check)
    else check == if isPayload then block.parent else HashOf(block)
  }

  /** What follows the insertion of a block. */
  ghost predicate AfterInserting(rules: Rules, mid: TreeView, block: Header, r: InsertResult, connectSeen: bool,
                                 target: Option<Hash>, joined: ConnectLog, outcome: TreeOutcome<PayloadStatus>,
                                 b: TreeView, limit: nat)
  {
    && AnswerFor(block, r, connectSeen, target, outcome)
    && if r.Rejected? then outcome.Outcome? && Rejects(mid, block, outcome.status, b)
       else if Follows(r, connectSeen) then
         Connects(rules, limit, target, mid, HashOf(block), joined, outcome.Outcome?, b)
       else b == mid
  }

  /** A block known to be bad is answered with the latest valid hash found for it, and is then recorded itself. */
  ghost predicate Refuses(a: TreeView, block: Header, check: Hash, checked: CacheView,
                          outcome: TreeOutcome<PayloadStatus>, b: TreeView)
  {
    && b == a.(cache := b.cache) && outcome.Outcome? && outcome.event.None?
    && outcome.status.PayloadInvalid? && outcome.status.latestValid.Some? && AnswerOk(a, HashOf(block), outcome.status)
    && Checked(a.cache, a.chain.blocks, check, outcome.status.latestValid, checked)
    && Recorded(checked, HashOf(block), a.cache.entries[check], b.cache)
  }

  /**
   Handling a block with whatever witness there is. Either it is known to be invalid, and nothing
   changes; or it is inserted, the answer is the one for the insertion's result, and after a new
   block, or a known one from a payload, what waited for it is connected.
   */
  ghost predicate Handles(rules: Rules, a: TreeView, block: Header, wit: Option<Witness>, connectSeen: bool,
                          target: Option<Hash>, log: HandleLog, outcome: TreeOutcome<PayloadStatus>, b: TreeView,
                          limit: nat)
  {
    && ChecksAt(a.buffer.blocks, block, connectSeen, log.check)
    && match log
       case Refused(check, checked) => Refuses(a, block, check, checked, outcome, b)
       case Tried(check, checked, result, inserted, joined) =>
         && Checked(a.cache, a.chain.blocks, check, None, checked)
         && InsertEffect(rules, a.(cache := checked), block, wit, result, inserted, limit)
         && AfterInserting(rules, inserted, block, result, connectSeen, target, joined, outcome, b, limit)
  }

  /**
   Handling a payload: a malformed one is invalid and changes nothing, and unless its hash is at
   fault the answer names what can be found from its parent.
   */
  ghost predicate HandlesPayload(rules: Rules, a: TreeView, payload: Payload, wit: Option<Witness>,
                                 target: Option<Hash>, log: HandleLog, outcome: TreeOutcome<PayloadStatus>,
                                 b: TreeView, limit: nat)
  {
    match payload
    case WellFormed(block) => Handles(rules, a, block, wit, true, target, log, outcome, b, limit)
    case Malformed(_, parent, hashFault) =>
      && b == a.(cache := b.cache) && outcome.Outcome? && outcome.status.PayloadInvalid? && outcome.event.None?
      && MalformedAnswer(a, parent, hashFault, outcome.status.latestValid, b.cache)
  }

  ghost predicate MalformedAnswer(t: TreeView, parent: Hash, hashFault: bool, latest: Option<Hash>, after: CacheView)
  {
    if hashFault then latest == None && after == t.cache
    else
      && Walked(t.cache, parent, after) && Finds(after.entries, t.chain.blocks, parent, latest)
      && (latest.Some? ==> IsLatestFrom(t.chain.blocks, t.failed, parent, latest.value))
  }

  /**
   If a failed block is recorded for the hash that is looked up, the block is refused: it is answered
   with the latest valid hash found from the failed block's parent, it is recorded as bad itself, and
   nothing else changes. The only way out is that looking dropped the record. If there is none, the
   block is tried.
   */
  lemma KnownBadIsRefused(rules: Rules, a: TreeView, block: Header, wit: Option<Witness>, connectSeen: bool,
                          target: Option<Hash>, log: HandleLog, outcome: TreeOutcome<PayloadStatus>, b: TreeView,
                          limit: nat, check: Hash)
    requires Handles(rules, a, block, wit, connectSeen, target, log, outcome, b, limit)
    requires if HashOf(block) in a.buffer.blocks then Gap(a.buffer.blocks, HashOf(block), check)
             else check == if connectSeen then block.parent else HashOf(block)
    ensures check !in a.cache.entries ==> log.Tried? && log.checked == a.cache
    ensures check in a.cache.entries ==>
            || a.cache.dropped + [check] <= b.cache.dropped
            || (&& outcome.Outcome? && outcome.status.PayloadInvalid? && outcome.event.None?
                && b == a.(cache := b.cache) && outcome.status.latestValid.Some?
                && exists walked: CacheView ::
                     && Walked(a.cache, a.cache.entries[check].parent, walked)
                     && Responds(walked.entries, a.chain.blocks, a.cache.entries[check].parent,
                                 outcome.status.latestValid.value)
                     && Recorded(walked, HashOf(block), a.cache.entries[check], b.cache))
  {
    if HashOf(block) in a.buffer.blocks {
      GapUnique(a.buffer.blocks, HashOf(block), log.check, check);
    }
    if log.Tried? {
      TriedGrows(rules, a, block, wit, connectSeen, target, log, outcome, b, limit);
    }
  }

  // ---------- what handling keeps ----------

  lemma SameBesidesCacheGrows(rules: Rules, a: TreeView, b: TreeView)
    requires b == a.(cache := b.cache) && a.cache.dropped <= b.cache.dropped
    ensures Grows(rules, a, b)
  {
    SameBufferGrows(rules, a, b);
  }

  lemma AfterInsertingGrows(rules: Rules, mid: TreeView, block: Header, r: InsertResult, connectSeen: bool,
                            target: Option<Hash>, joined: ConnectLog, outcome: TreeOutcome<PayloadStatus>,
                            b: TreeView, limit: nat)
    requires AfterInserting(rules, mid, block, r, connectSeen, target, joined, outcome, b, limit)
    ensures Grows(rules, mid, b) && (Gated(mid) ==> Gated(b))
  {
    if !r.Rejected? && Follows(r, connectSeen) {
      ConnectsGrows(rules, limit, target, mid, HashOf(block), joined, outcome.Outcome?, b);
      if Gated(mid) {
        ConnectsGated(rules, limit, target, mid, HashOf(block), joined, outcome.Outcome?, b);
      }
    } else {
      SameBufferGrows(rules, mid, b);
    }
  }

  lemma TriedGrows(rules: Rules, a: TreeView, block: Header, wit: Option<Witness>, connectSeen: bool,
                   target: Option<Hash>, log: HandleLog, outcome: TreeOutcome<PayloadStatus>, b: TreeView, limit: nat)
    requires Handles(rules, a, block, wit, connectSeen, target, log, outcome, b, limit) && log.Tried?
    ensures Grows(rules, a, b) && log.checked.dropped <= b.cache.dropped
    ensures Gated(a) && (wit.Some? ==> wit.value.codes <= a.store) ==> Gated(b)
  {
    var start := a.(cache := log.checked);
    SameBesidesCacheGrows(rules, a, start);
    InsertGrows(rules, start, block, wit, log.result, log.inserted, limit);
    AfterInsertingGrows(rules, log.inserted, block, log.result, connectSeen, target, log.joined, outcome, b, limit);
    GrowsTransitive(rules, start, log.inserted, b);
    GrowsTransitive(rules, a, start, b);
    if Gated(a) && (wit.Some? ==> wit.value.codes <= a.store) {
      InsertGated(rules, start, block, wit, log.result, log.inserted, limit);
    }
  }

  /** Handling a block takes nothing away without a recorded cause, and keeps the execution gate. */
  lemma HandlesGrows(rules: Rules, a: TreeView, block: Header, wit: Option<Witness>, connectSeen: bool,
                     target: Option<Hash>, log: HandleLog, outcome: TreeOutcome<PayloadStatus>, b: TreeView,
                     limit: nat)
    requires Handles(rules, a, block, wit, connectSeen, target, log, outcome, b, limit)
    ensures Grows(rules, a, b)
    ensures Gated(a) && (wit.Some? ==> wit.value.codes <= a.store) ==> Gated(b)
  {
    if log.Tried? {
      TriedGrows(rules, a, block, wit, connectSeen, target, log, outcome, b, limit);
    } else {
      SameBesidesCacheGrows(rules, a, b);
    }
  }

  lemma PayloadGrows(rules: Rules, a: TreeView, payload: Payload, wit: Option<Witness>, target: Option<Hash>,
                     log: HandleLog, outcome: TreeOutcome<PayloadStatus>, b: TreeView, limit: nat)
    requires HandlesPayload(rules, a, payload, wit, target, log, outcome, b, limit)
    ensures Grows(rules, a, b)
    ensures Gated(a) && (wit.Some? ==> wit.value.codes <= a.store) ==> Gated(b)
  {
    if payload.WellFormed? {
      HandlesGrows(rules, a, payload.block, wit, true, target, log, outcome, b, limit);
    } else {
      SameBesidesCacheGrows(rules, a, b);
    }
  }

  /** Every answer is justified by the tree it leaves, and an error by an execution it made. */
  lemma HandlesJustified(rules: Rules, a: TreeView, block: Header, wit: Option<Witness>, connectSeen: bool,
                         target: Option<Hash>, log: HandleLog, outcome: TreeOutcome<PayloadStatus>, b: TreeView,
                         limit: nat)
    requires Handles(rules, a, block, wit, connectSeen, target, log, outcome, b, limit)
    ensures Justified(rules, |a.executed|, b, HashOf(block), outcome)
  {
    if log.Tried? {
      AfterInsertingGrows(rules, log.inserted, block, log.result, connectSeen, target, log.joined, outcome, b, limit);
      if log.result.Fatal? {
        FatalIsCrash(rules, a.(cache := log.checked), block, wit, log.result, log.inserted, limit);
      } else if outcome.Failure? {
        ConnectsSettles(rules, limit, target, log.inserted, HashOf(block), log.joined, false, b);
      }
    }
  }

  /** After a new block, or a known one from a payload, everything that was ready and linked below it is settled. */
  lemma HandlesSettles(rules: Rules, a: TreeView, block: Header, wit: Option<Witness>, connectSeen: bool,
                       target: Option<Hash>, log: HandleLog, outcome: TreeOutcome<PayloadStatus>, b: TreeView,
                       limit: nat)
    requires Handles(rules, a, block, wit, connectSeen, target, log, outcome, b, limit)
    requires log.Tried? && Follows(log.result, connectSeen) && outcome.Outcome?
    ensures SettledBelow(a.buffer, HashOf(block), b, |a.failures|)
  {
    ConnectsSettles(rules, limit, target, log.inserted, HashOf(block), log.joined, true, b);
  }

  /**
   The answer to a block that is tried: valid exactly if it is then in memory, and then it is to be made
   canonical exactly if it is the sync target and new, or a payload; syncing, with the first unbuffered
   ancestor asked for, if it obeys the rules but its parent is not in memory.
   */
  lemma AnswersTable(rules: Rules, a: TreeView, block: Header, wit: Option<Witness>, connectSeen: bool,
                     target: Option<Hash>, log: HandleLog, outcome: TreeOutcome<PayloadStatus>, b: TreeView, limit: nat)
    requires Handles(rules, a, block, wit, connectSeen, target, log, outcome, b, limit)
    requires log.Tried? && outcome.Outcome?
    ensures outcome.status == PayloadValid(HashOf(block)) <==> HashOf(block) in b.chain.blocks
    ensures outcome.event == Some(Canonicalize(HashOf(block))) <==>
            HashOf(block) in b.chain.blocks && target == Some(HashOf(block)) &&
            (connectSeen || HashOf(block) !in a.chain.blocks)
    ensures HashOf(block) !in a.chain.blocks && rules.blockOk(block) && block.parent !in a.chain.blocks ==>
              && outcome.status == Syncing && HashOf(block) !in b.chain.blocks
              && forall m :: Gap(a.buffer.blocks, block.parent, m) ==> outcome.event == Some(DownloadBlock(m))
  {
    AfterInsertingGrows(rules, log.inserted, block, log.result, connectSeen, target, log.joined, outcome, b, limit);
    if log.result.Disconnected? {
      var low :| WaitsFor(a.buffer.blocks, block, low, log.result.missingAncestor);
      LowestIsGap(a.buffer.blocks, block.parent, low);
      forall m | Gap(a.buffer.blocks, block.parent, m)
        ensures m == log.result.missingAncestor.hash
      {
        GapUnique(a.buffer.blocks, block.parent, m, log.result.missingAncestor.hash);
      }
    }
  }

  /** What is wrong with a block: a rule on its own, one against its parent in memory, or its execution there. */
  ghost predicate FailsOn(rules: Rules, blocks: map<Hash, Header>, block: Header, wit: Option<Witness>)
  {
    || !rules.blockOk(block)
    || (&& block.parent in blocks && block.parent.HashOf?
        && (|| block.number != block.parent.header.number + 1 || !rules.againstParentOk(block, block.parent.header)
            || (wit.Some? && rules.execute(block, wit.value) == Fails)))
  }

  /**
   A block that is tried is invalid exactly if it is new and something is wrong with it. Then it is
   marked failed and recorded as bad, its parent is named if that is in memory, and nothing else changes.
   */
  lemma InvalidIff(rules: Rules, a: TreeView, block: Header, wit: Option<Witness>, connectSeen: bool,
                   target: Option<Hash>, log: HandleLog, outcome: TreeOutcome<PayloadStatus>, b: TreeView, limit: nat)
    requires Handles(rules, a, block, wit, connectSeen, target, log, outcome, b, limit)
    requires log.Tried? && outcome.Outcome? && ChainStates.Coherent(a.chain)
    ensures outcome.status.PayloadInvalid? <==>
            HashOf(block) !in a.chain.blocks && FailsOn(rules, a.chain.blocks, block, wit)
    ensures outcome.status.PayloadInvalid? ==>
              && outcome.event == None && b.failures == a.failures + [HashOf(block)]
              && b.failed == a.failed + {HashOf(block)} && HashOf(block) in b.cache.entries
              && b.chain == a.chain && b.buffer == a.buffer && b.head == a.head
              && (block.parent in a.chain.blocks ==> outcome.status.latestValid == Some(block.parent))
  {
  }

  /** A witness is asked for exactly if only that is missing to execute a new block. */
  lemma WitnessAskedIff(rules: Rules, a: TreeView, block: Header, wit: Option<Witness>, connectSeen: bool,
                        target: Option<Hash>, log: HandleLog, outcome: TreeOutcome<PayloadStatus>, b: TreeView,
                        limit: nat)
    requires Handles(rules, a, block, wit, connectSeen, target, log, outcome, b, limit)
    requires log.Tried? && ChainStates.Coherent(a.chain)
    ensures outcome == Outcome(Syncing, Some(DownloadWitness(HashOf(block)))) <==>
            && HashOf(block) !in a.chain.blocks && block.parent in a.chain.blocks && wit.None?
            && !FailsOn(rules, a.chain.blocks, block, wit)
  {
  }

  /** A valid answer settles what waited for the block, unless it is a downloaded one that was known. */
  lemma ValidSettles(rules: Rules, a: TreeView, block: Header, wit: Option<Witness>, connectSeen: bool,
                     target: Option<Hash>, log: HandleLog, outcome: TreeOutcome<PayloadStatus>, b: TreeView, limit: nat)
    requires Handles(rules, a, block, wit, connectSeen, target, log, outcome, b, limit)
    requires outcome.Outcome? && outcome.status.PayloadValid?
    requires connectSeen || HashOf(block) !in a.chain.blocks
    ensures SettledBelow(a.buffer, HashOf(block), b, |a.failures|)
  {
    HandlesSettles(rules, a, block, wit, connectSeen, target, log, outcome, b, limit);
  }

  /** The answer asks for a witness only if the block now waits for it, connected and buffered. */
  lemma HandlesAsks(rules: Rules, a: TreeView, block: Header, wit: Option<Witness>, connectSeen: bool,
                    target: Option<Hash>, log: HandleLog, outcome: TreeOutcome<PayloadStatus>, b: TreeView, limit: nat)
    requires Handles(rules, a, block, wit, connectSeen, target, log, outcome, b, limit)
    requires outcome.Outcome? && outcome.event.Some? && outcome.event.value.DownloadWitness?
    requires B.Coherent(a.buffer, limit) && limit >= 1
    ensures wit.None? && outcome == Outcome(Syncing, Some(DownloadWitness(HashOf(block))))
    ensures HashOf(block) in b.buffer.blocks && block.parent in b.chain.blocks && HashOf(block) !in b.chain.blocks
  {
    AfterInsertingAsks(rules, log.inserted, block, log.result, connectSeen, target, log.joined, outcome, b, limit);
    WaitsInBuffer(rules, a.(cache := log.checked), block, wit, log.result, log.inserted, limit);
  }

  lemma AfterInsertingAsks(rules: Rules, mid: TreeView, block: Header, r: InsertResult, connectSeen: bool,
                           target: Option<Hash>, joined: ConnectLog, outcome: TreeOutcome<PayloadStatus>,
                           b: TreeView, limit: nat)
    requires AfterInserting(rules, mid, block, r, connectSeen, target, joined, outcome, b, limit)
    requires outcome.Outcome? && outcome.event.Some? && outcome.event.value.DownloadWitness?
    ensures r.NoWitness? && b == mid && outcome == Outcome(Syncing, Some(DownloadWitness(HashOf(block))))
  {
  }

  lemma WaitsInBuffer(rules: Rules, a: TreeView, block: Header, wit: Option<Witness>, r: InsertResult, b: TreeView,
                        limit: nat)
    requires InsertEffect(rules, a, block, wit, r, b, limit) && r.NoWitness?
    requires B.Coherent(a.buffer, limit) && limit >= 1
    ensures wit.None? && HashOf(block) in b.buffer.blocks && block.parent in b.chain.blocks
    ensures HashOf(block) !in b.chain.blocks
  {
    InsertedCoherent(a.buffer, block, limit);
  }

  // ---------- exactly which blocks leave the buffer ----------

  /** A block is taken out along with another: it is ready and linked below it. */
  ghost predicate TakenAlong(v: BufferView, root: Hash, h: Hash)
  {
    h in v.blocks && Ready(v, h) && BelowAny(v.children, {root}, h)
  }

  /** The block is buffered exactly if it was and has not been evicted since. */
  ghost predicate KeptUnlessEvicted(t: TreeView, since: nat, h: Hash, was: bool)
  {
    since <= |t.evictions| && (h in t.buffer.blocks <==> was && !LoggedSince(t.evictions, since, h))
  }

  lemma WithBlockEvicts(t: TreeView, block: Header, limit: nat, since: nat, h: Hash, was: bool)
    requires KeptUnlessEvicted(t, since, h, was) && h != HashOf(block)
    ensures KeptUnlessEvicted(WithBlock(t, block, limit), since, h, was)
  {
    var u, out := WithBlock(t, block, limit), PushedOut(t.buffer, block, limit);
    InsertedMaps(t.buffer, block, limit);
    if h in out {
      assert u.evictions[|t.evictions|] == h;
    } else if LoggedSince(t.evictions, since, h) {
      var i :| since <= i < |t.evictions| && t.evictions[i] == h;
      assert u.evictions[i] == h;
    }
  }

  /** A block whose parent is in memory does not come back into the buffer by an insertion with a witness. */
  lemma InsertEvicts(rules: Rules, a: TreeView, block: Header, wit: Option<Witness>, r: InsertResult, b: TreeView,
                     limit: nat, since: nat, h: Hash, was: bool)
    requires InsertEffect(rules, a, block, wit, r, b, limit) && KeptUnlessEvicted(a, since, h, was)
    requires h.HashOf? && h.header.parent in a.chain.blocks && (wit.Some? || h != HashOf(block))
    ensures KeptUnlessEvicted(b, since, h, was) && h.header.parent in b.chain.blocks
  {
    if r.Disconnected? {
      WithBlockEvicts(a.(buffer := Given(a.buffer, HashOf(block), wit)), block, limit, since, h, was);
    } else if r.NoWitness? {
      WithBlockEvicts(a, block, limit, since, h, was);
    }
  }

  lemma {:induction false} ConnectingEvicts(rules: Rules, limit: nat, target: Option<Hash>, a: TreeView,
                                            removed: seq<(Header, Witness)>, connections: seq<Connection>, since: nat,
                                            h: Hash, was: bool)
    requires Connecting(rules, limit, target, a, removed, connections) && KeptUnlessEvicted(a, since, h, was)
    requires h.HashOf? && h.header.parent in a.chain.blocks
    ensures var b := TreeAfter(a, connections);
            KeptUnlessEvicted(b, since, h, was) && h.header.parent in b.chain.blocks
    decreases |connections|
  {
    if connections != [] {
      var before, last := connections[..|connections| - 1], |connections| - 1;
      ConnectingBefore(rules, limit, target, a, removed, connections);
      assert ConnectAt(rules, limit, target, a, removed, connections, last);
      ConnectingEvicts(rules, limit, target, a, removed, before, since, h, was);
      var child, c := removed[last], connections[last];
      InsertEvicts(rules, TreeAfter(a, before), child.0, Some(child.1), c.result, c.mid, limit, since, h, was);
    }
  }

  /** Whether handling a block takes another one out along with it. */
  ghost predicate Sweeps(a: TreeView, block: Header, connectSeen: bool, log: HandleLog, h: Hash)
  {
    log.Tried? && Follows(log.result, connectSeen) && TakenAlong(a.buffer, HashOf(block), h)
  }

  /**
   Exactly which other blocks leave the buffer when a block is handled, of those whose parent is in
   memory: the ones pushed out at the limit, and the ready ones linked below the block if it is
   connected. The latter are then in memory or failed, unless an execution ended in a fatal error.
   */
  lemma HandlesKeepsIff(rules: Rules, a: TreeView, block: Header, wit: Option<Witness>, connectSeen: bool,
                        target: Option<Hash>, log: HandleLog, outcome: TreeOutcome<PayloadStatus>, b: TreeView,
                        limit: nat, h: Hash)
    requires Handles(rules, a, block, wit, connectSeen, target, log, outcome, b, limit)
    requires h in a.buffer.blocks && h != HashOf(block) && h.HashOf? && h.header.parent in a.chain.blocks
    ensures h in b.buffer.blocks <==>
            !Sweeps(a, block, connectSeen, log, h) && !LoggedSince(b.evictions, |a.evictions|, h)
    ensures Sweeps(a, block, connectSeen, log, h) && outcome.Outcome? ==>
              h in b.chain.blocks || LoggedSince(b.failures, |a.failures|, h)
  {
    if log.Tried? {
      var mid := log.inserted;
      InsertEvicts(rules, a.(cache := log.checked), block, wit, log.result, mid, limit, |a.evictions|, h, true);
      if Follows(log.result, connectSeen) {
        ConnectsKeepsIff(rules, limit, target, mid, HashOf(block), log.joined, outcome.Outcome?, b, h);
        HandlesGrows(rules, a, block, wit, connectSeen, target, log, outcome, b, limit);
      }
    }
  }

  lemma ConnectsKeepsIff(rules: Rules, limit: nat, target: Option<Hash>, a: TreeView, root: Hash, log: ConnectLog,
                         ok: bool, b: TreeView, h: Hash)
    requires Connects(rules, limit, target, a, root, log, ok, b)
    requires h in a.buffer.blocks && h.HashOf? && h.header.parent in a.chain.blocks
    ensures h in b.buffer.blocks <==>
            !TakenAlong(a.buffer, root, h) && !LoggedSince(b.evictions, |a.evictions|, h)
    ensures TakenAlong(a.buffer, root, h) && ok ==>
              h in b.chain.blocks || LoggedSince(b.failures, |a.failures|, h)
  {
    var start := a.(buffer := log.collected);
    assert h in log.collected.blocks <==> !TakenAlong(a.buffer, root, h);
    ConnectingEvicts(rules, limit, target, start, log.removed, log.connections, |a.evictions|, h,
                     h in log.collected.blocks);
    ConnectsSettles(rules, limit, target, a, root, log, ok, b);
  }
}
