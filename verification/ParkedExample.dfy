/**
 A parked payload that stays unanswered although its block has been executed: a block next in line
 is connected first and takes the parked one along.
 */
module ParkedExamples {
  import opened Blocks
  import opened ChainStates
  import opened ChainRuns
  import opened ChainExamples
  import opened InvalidAncestors
  import opened B = BlockBuffers
  import opened Downloads
  import opened TreeSpecs
  import opened BlockHandling
  import opened EngineSpecs

  const LIMIT: nat := 256

  const CODE: Code := 0

  /** A witness that needs one bytecode. */
  const NEEDY := Witness({CODE}, 0)

  /** Rules that nothing breaks. */
  const LENIENT := Rules((h: Header) => true, (h: Header, parent: Header) => true,
                         (h: Header, w: Witness) => Succeeds, (n: nat, h: Header) => true)

  const EMPTY := BufferView(map[], map[], map[], map[], map[], [])

  /** Three blocks on top of each other, buffered in this order; the outer two have witnesses that lack a bytecode. */
  ghost function Waiters(below: Header, synced: Header, parked: Header): BufferView
  {
    var b := Inserted(Inserted(Inserted(EMPTY, synced, LIMIT), below, LIMIT), parked, LIMIT);
    WitnessInserted(WitnessInserted(b, HashOf(below), NEEDY, {CODE}), HashOf(parked), NEEDY, {CODE})
  }

  lemma InsertedRoom(v: BufferView, block: Header)
    requires HashOf(block) !in v.lru && |v.lru| < LIMIT
    ensures Inserted(v, block, LIMIT) == Indexed(v, block).(lru := v.lru + [HashOf(block)])
  {
  }

  ghost predicate OnTopOfEachOther(below: Header, synced: Header, parked: Header)
  {
    synced.parent == HashOf(below) && parked.parent == HashOf(synced)
    && below != synced && synced != parked && below != parked
  }

  /** A block is buffered with a witness that lacks the bytecode. */
  ghost predicate Lacks(v: BufferView, block: Header)
  {
    var h := HashOf(block);
    && h in v.blocks && v.blocks[h] == block && h in v.witnesses && v.witnesses[h] == NEEDY
    && h in v.missing && v.missing[h] == {CODE}
  }

  /** Only the outer two lack anything, and the blocks are linked. */
  ghost predicate Lined(v: BufferView, below: Header, synced: Header, parked: Header)
  {
    && Lacks(v, below) && Lacks(v, parked) && HashOf(synced) in v.blocks
    && v.witnesses.Keys == {HashOf(below), HashOf(parked)} && v.missing.Keys == {HashOf(below), HashOf(parked)}
    && Link(v.children, HashOf(synced)) && Link(v.children, HashOf(parked))
  }

  lemma WaitersCoherent(below: Header, synced: Header, parked: Header)
    ensures B.Coherent(Waiters(below, synced, parked), LIMIT)
  {
    EmptyCoherent();
    var one := Inserted(EMPTY, synced, LIMIT);
    var two := Inserted(one, below, LIMIT);
    var three := Inserted(two, parked, LIMIT);
    InsertedCoherent(EMPTY, synced, LIMIT);
    InsertedCoherent(one, below, LIMIT);
    InsertedCoherent(two, parked, LIMIT);
    WitnessCoherent(three, HashOf(below), NEEDY, {CODE});
    WitnessCoherent(WitnessInserted(three, HashOf(below), NEEDY, {CODE}), HashOf(parked), NEEDY, {CODE});
  }

  lemma EmptyCoherent()
    ensures B.Coherent(EMPTY, LIMIT)
  {
  }

  lemma WitnessCoherent(v: BufferView, h: Hash, wit: Witness, missing: set<Code>)
    requires B.Coherent(v, LIMIT)
    ensures B.Coherent(WitnessInserted(v, h, wit, missing), LIMIT)
  {
  }

  lemma WaitersLined(below: Header, synced: Header, parked: Header)
    requires OnTopOfEachOther(below, synced, parked)
    ensures Lined(Waiters(below, synced, parked), below, synced, parked)
  {
    var one := Inserted(EMPTY, synced, LIMIT);
    var two := Inserted(one, below, LIMIT);
    InsertedRoom(EMPTY, synced);
    InsertedRoom(one, below);
    InsertedRoom(two, parked);
  }

  /** The lower two's parents are in memory, as is the middle block itself; no block has failed. */
  ghost predicate Connectable(t: TreeView, below: Header, synced: Header)
  {
    && HashOf(below) !in t.chain.blocks && HashOf(synced) in t.chain.blocks && t.failed == {}
    && below.parent in t.chain.blocks && below.number == t.chain.blocks[below.parent].number + 1
  }

  /** Every execution had its witness's bytecodes stored. */
  ghost predicate ExecutedFrom(executed: seq<(Hash, Witness)>, store: set<Code>)
  {
    forall e :: e in executed ==> e.1.codes <= store
  }

  /** The tree before and after the bytecode arrives. */
  ghost predicate Poised(t: TreeView, below: Header, synced: Header, parked: Header)
  {
    && OnTopOfEachOther(below, synced, parked) && Connectable(t, below, synced)
    && Lined(t.buffer, below, synced, parked) && B.Coherent(t.buffer, LIMIT)
    && t.store == {} && ExecutedFrom(t.executed, t.store)
  }

  ghost function Unblocked(t: TreeView): TreeView
  {
    Stored(t, Bytecode(CODE), true, LIMIT)
  }

  lemma NothingMissing(v: BufferView, below: Header, synced: Header, parked: Header)
    requires OnTopOfEachOther(below, synced, parked) && Lined(v, below, synced, parked)
    ensures BytecodeReceived(v.missing, CODE) == map[]
    ensures Unlocked(v.missing, CODE) == {HashOf(below), HashOf(parked)}
  {
  }

  /** The engine may well be in this situation, with the payload of the topmost block parked. */
  lemma PoisedIsWaiting(t: TreeView, below: Header, synced: Header, parked: Header, d: DownloadView, id: nat)
    requires Poised(t, below, synced, parked) && CODE in d.codes
    ensures Waiting(LENIENT, t, d, Some(Parked(HashOf(parked), id)), {}, {}, MarkOf(t))
    ensures UnlockedBy(t, Bytecode(CODE), true) == {HashOf(below), HashOf(parked)}
  {
    NothingMissing(t.buffer, below, synced, parked);
    assert CodeAwaited(d, CODE) && HashOf(parked) in t.buffer.missing;
  }

  lemma {:induction false} NothingInvalid(h: Hash)
    ensures !Invalid({}, h)
  {
    if h.HashOf? {
      NothingInvalid(h.header.parent);
    }
  }

  lemma UnblockedReady(t: TreeView, below: Header, synced: Header, parked: Header)
    requires Poised(t, below, synced, parked)
    ensures HashOf(below) in AllReady(Unblocked(t).buffer) && HashOf(parked) in AllReady(Unblocked(t).buffer)
    ensures Unblocked(t).buffer.blocks[HashOf(below)] == below && Unblocked(t).buffer.witnesses[HashOf(below)] == NEEDY
  {
    NothingMissing(t.buffer, below, synced, parked);
  }

  /** No rule is broken: the lower block is connected. */
  lemma LenientConnects(t: TreeView, below: Header, synced: Header, target: Option<Hash>, log: HandleLog,
                        outcome: TreeOutcome<PayloadStatus>, b: TreeView)
    requires Connectable(t, below, synced)
    requires Handles(LENIENT, t, below, Some(NEEDY), false, target, log, outcome, b, LIMIT)
    ensures log.Tried? && log.result.Connected? && outcome.Outcome?
  {
    NothingInvalid(HashOf(below));
    HandlesJustified(LENIENT, t, below, Some(NEEDY), false, target, log, outcome, b, LIMIT);
  }

  /** The lower block can be connected, and the parked one is ready and linked below it. */
  ghost predicate Ripe(u: TreeView, below: Header, synced: Header, parked: Hash)
  {
    && Connectable(u, below, synced) && HashOf(below) in AllReady(u.buffer)
    && u.buffer.blocks[HashOf(below)] == below && u.buffer.witnesses[HashOf(below)] == NEEDY
    && parked.HashOf? && parked.header.parent == HashOf(synced) && parked != HashOf(below)
    && TakenAlong(Taken(u.buffer, HashOf(below)), HashOf(below), parked)
  }

  lemma PoisedRipens(t: TreeView, below: Header, synced: Header, parked: Header)
    requires Poised(t, below, synced, parked)
    ensures Ripe(Unblocked(t), below, synced, HashOf(parked))
  {
    UnblockedReady(t, below, synced, parked);
    ParkedBelow(t, below, synced, parked);
  }

  lemma FirstConnects(u: TreeView, below: Header, synced: Header, parked: Hash, target: Option<Hash>, first: Step)
    requires Ripe(u, below, synced, parked) && first.before.tree == u && first.hash == HashOf(below)
    requires StepOk(LENIENT, target, LIMIT, first)
    ensures first.handled && first.outcome.Outcome? && first.log.Tried? && first.log.result.Connected?
  {
    LenientConnects(WithoutBlock(u, first.hash), below, synced, target, first.log, first.outcome, first.mid);
  }

  lemma LinkKept(v: BufferView, h: Hash, c: Hash)
    requires Link(v.children, c) && c != h
    ensures Link(Taken(v, h).children, c)
  {
    assert c in v.children[c.header.parent] - {h};
  }

  lemma ParkedBelow(t: TreeView, below: Header, synced: Header, parked: Header)
    requires Poised(t, below, synced, parked)
    ensures TakenAlong(Taken(Unblocked(t).buffer, HashOf(below)), HashOf(below), HashOf(parked))
  {
    var v := Unblocked(t).buffer;
    UnblockedReady(t, below, synced, parked);
    LinkKept(v, HashOf(below), HashOf(synced));
    LinkKept(v, HashOf(below), HashOf(parked));
    TwoBelow(Taken(v, HashOf(below)).children, HashOf(below), HashOf(synced), HashOf(parked));
  }

  lemma TwoBelow(links: map<Hash, set<Hash>>, a: Hash, b: Hash, c: Hash)
    requires Link(links, b) && b.header.parent == a && Link(links, c) && c.header.parent == b
    ensures BelowAny(links, {a}, c)
  {
    assert BelowAny(links, {a}, a);
    assert BelowAny(links, {a}, b);
  }

  /**
   When the bytecode arrives and the lower block is processed first, the parked block is taken out
   with it: its own step is skipped and its payload stays parked, although nothing more can happen to it.
   */
  lemma {:induction false} ParkedCanBeBypassed(u: TreeView, below: Header, synced: Header, parked: Parked,
                                               target: Option<Hash>, first: Step, own: Step)
    requires Ripe(u, below, synced, parked.hash) && first.before.tree == u
    requires first.hash == HashOf(below) && StepOk(LENIENT, target, LIMIT, first)
    requires own.hash == parked.hash && StepOk(LENIENT, target, LIMIT, own) && own.before == first.after
    ensures !own.handled && parked.hash !in own.after.tree.buffer.blocks
    ensures parked.hash in own.after.tree.chain.blocks ||
            LoggedSince(own.after.tree.failures, |u.failures|, parked.hash)
    ensures StillParked(Some(parked), [first, own]) == Some(parked) && StepReplies(Some(parked), [first, own]) == []
  {
    FirstConnects(u, below, synced, parked.hash, target, first);
    ParkedIsBypassed(LENIENT, target, LIMIT, parked, first, own);
  }

  // ---------- how the tree gets there ----------

  lemma LineOnTop(m: nat)
    requires m > 0
    ensures OnTopOfEachOther(Line(0, m - 1), Line(0, m), Line(0, m + 1))
  {
    LineAncestor(0, m - 1, m - 1);
    LineAncestor(0, m, m);
    LineAncestor(0, m + 1, m + 1);
  }

  lemma LineConnectable(s: Chain, m: nat)
    requires m > BLOCK_HASH_WINDOW && AtSync(s, m - 2, m)
    ensures var below, held := Line(0, m - 1), s.view.blocks;
            && HashOf(below) !in held && HashOf(Line(0, m)) in held && below.parent in held
            && below.number == held[below.parent].number + 1
  {
    LineAncestor(0, m - 1, m - 1);
    LineAncestor(0, m - 2, m - 2);
    var parent := HashOf(Line(0, m - 2));
    assert parent in s.view.blocks && s.view.blocks[parent] == parent.header;
  }

  /** The executions that put a history's blocks into memory. */
  ghost function Executions(history: seq<ChainEvent>): seq<(Hash, Witness)>
  {
    if history == [] then []
    else
      var before, e := history[..|history| - 1], history[|history| - 1];
      Executions(before) + (if e.BlockExecuted? then [(HashOf(e.block), e.wit)] else [])
  }

  lemma OneMoreExecution(history: seq<ChainEvent>, block: Header, wit: Witness)
    ensures Executions(history + [BlockExecuted(block, wit)]) == Executions(history) + [(HashOf(block), wit)]
  {
    assert (history + [BlockExecuted(block, wit)])[..|history|] == history;
  }

  lemma NotAnExecution(history: seq<ChainEvent>, e: ChainEvent)
    requires !e.BlockExecuted?
    ensures Executions(history + [e]) == Executions(history)
  {
    assert (history + [e])[..|history|] == history;
  }

  lemma {:induction false} LineNeedsNothing(n: nat)
    ensures ExecutedFrom(Executions(Execute(n)), {})
  {
    if n > 0 {
      LineNeedsNothing(n - 1);
      OneMoreExecution(Execute(n - 1), Line(0, n), NO_CODES);
    }
  }

  /** The line is executed up to height k, and block m of it is finalized and synced. */
  lemma SyncAhead(k: nat, m: nat) returns (events: seq<ChainEvent>, s: Chain)
    requires m > BLOCK_HASH_WINDOW && k <= m
    ensures IsRun(Start(GENESIS), events) && s == After(Start(GENESIS), events) && AtSync(s, k, m)
    ensures ExecutedFrom(Executions(events), {})
  {
    SyncLineRuns(k, m);
    LineNeedsNothing(k);
    NotAnExecution(Execute(k), FinalizedSynced(Line(0, m), Below(0, m)));
    events := SyncLine(k, m);
    s := After(Start(GENESIS), events);
  }

  lemma LineIsPoised(t: TreeView, s: Chain, m: nat, below: Header, synced: Header, parked: Header)
    requires m > BLOCK_HASH_WINDOW && AtSync(s, m - 2, m)
    requires below == Line(0, m - 1) && synced == Line(0, m) && parked == Line(0, m + 1)
    requires t == TreeView(s.view, s.head, Waiters(below, synced, parked), {}, t.executed, t.history, {}, [],
                           [], t.cache)
    requires ExecutedFrom(t.executed, {})
    ensures Poised(t, below, synced, parked)
  {
    LineOnTop(m);
    LineConnectable(s, m);
    WaitersLined(below, synced, parked);
    WaitersCoherent(below, synced, parked);
  }

  lemma RunIsTracked(genesis: Header, events: seq<ChainEvent>)
    requires IsGenesis(genesis) && IsRun(Start(genesis), events)
    ensures Tracked(genesis, After(Start(genesis), events).view, After(Start(genesis), events).head, events)
  {
  }

  /** A run of the chain leads to such a tree, and insertions lead to its buffer. */
  lemma SituationArises(m: nat) returns (t: TreeView, below: Header, synced: Header, parked: Header)
    requires m > BLOCK_HASH_WINDOW
    ensures Tracked(GENESIS, t.chain, t.head, t.history) && IsRun(Start(GENESIS), t.history)
    ensures t.executed == Executions(t.history) && Poised(t, below, synced, parked)
  {
    var events, s := SyncAhead(m - 2, m);
    below, synced, parked := Line(0, m - 1), Line(0, m), Line(0, m + 1);
    t := TreeView(s.view, s.head, Waiters(below, synced, parked), {}, Executions(events), events, {}, [], [],
                  CacheView(map[], []));
    LineIsPoised(t, s, m, below, synced, parked);
    RunIsTracked(GENESIS, events);
  }
}
