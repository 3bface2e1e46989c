/**
 Retrying downloads of blocks and header ranges from untrusted peers. Each future is polled with
 the responses that have become ready since; an exhausted script means the request is pending.
 */
module Fetch {
  import opened Blocks
  import opened ChainSwitch

  type Body = nat

  datatype Response<+T> = Reply(value: T) | Failed

  /** The consensus checks a download is held against. */
  datatype Checks = Checks(headerOk: Header -> bool, bodyOk: (Body, Header) -> bool)

  /** A poll yields a result, or a state that waits for more. */
  datatype Polling<+R, +D> = Done(result: D) | Waits(state: R)

  // ---------- one block ----------

  /** A fetch of one block: a part that is not there has a request outstanding. */
  datatype BlockFetch = BlockFetch(hash: Hash, header: Option<Header>, body: Option<Body>) {

    /** A header that has been kept is the requested one. */
    predicate Right() {
      header.Some? ==> HashOf(header.value) == hash
    }
  }

  /** The response carries the requested header. */
  predicate RightHeader(hash: Hash, response: Response<Option<Header>>)
  {
    response.Reply? && response.value.Some? && HashOf(response.value.value) == hash
  }

  /** The response carries a body accepted for the header. */
  predicate RightBody(header: Header, checks: Checks, response: Response<Option<Body>>)
  {
    response.Reply? && response.value.Some? && checks.bodyOk(response.value.value, header)
  }

  function FirstHeader(hash: Hash, responses: seq<Response<Option<Header>>>): Option<Header>
  {
    if responses == [] then None
    else if RightHeader(hash, responses[0]) then responses[0].value
    else FirstHeader(hash, responses[1..])
  }

  function FirstBody(responses: seq<Response<Option<Body>>>): Option<Body>
  {
    if responses == [] then None
    else if responses[0].Reply? && responses[0].value.Some? then responses[0].value
    else FirstBody(responses[1..])
  }

  function FirstRightBody(header: Header, checks: Checks, responses: seq<Response<Option<Body>>>): Option<Body>
  {
    if responses == [] then None
    else if RightBody(header, checks, responses[0]) then responses[0].value
    else FirstRightBody(header, checks, responses[1..])
  }

  /**
   What polling a block fetch comes to. Without the header the first body is kept unseen; with
   it, a kept body or the first acceptable one completes the block.
   */
  function PollBlock(s: BlockFetch, headers: seq<Response<Option<Header>>>, bodies: seq<Response<Option<Body>>>,
                     checks: Checks): Polling<BlockFetch, (Header, Body)>
  {
    var header := if s.header.Some? then s.header else FirstHeader(s.hash, headers);
    if header.None? then
      Waits(s.(body := if s.body.Some? then s.body else FirstBody(bodies)))
    else
      var kept := s.body.Some? && checks.bodyOk(s.body.value, header.value);
      var body := if kept then s.body else FirstRightBody(header.value, checks, bodies);
      if body.Some? then Done((header.value, body.value)) else Waits(BlockFetch(s.hash, header, None))
  }

  lemma {:induction false} FirstHeaderSpec(hash: Hash, responses: seq<Response<Option<Header>>>)
    ensures FirstHeader(hash, responses).Some? ==> HashOf(FirstHeader(hash, responses).value) == hash
    ensures FirstHeader(hash, responses).None? <==> forall r :: r in responses ==> !RightHeader(hash, r)
  {
    if responses != [] {
      assert responses == [responses[0]] + responses[1..];
      FirstHeaderSpec(hash, responses[1..]);
    }
  }

  lemma {:induction false} FirstRightBodySpec(header: Header, checks: Checks, responses: seq<Response<Option<Body>>>)
    ensures FirstRightBody(header, checks, responses).Some? ==>
              checks.bodyOk(FirstRightBody(header, checks, responses).value, header)
    ensures FirstRightBody(header, checks, responses).Some? ==>
              Reply(FirstRightBody(header, checks, responses)) in responses
    ensures FirstRightBody(header, checks, responses).None? <==>
            forall r :: r in responses ==> !RightBody(header, checks, r)
  {
    if responses != [] {
      assert responses == [responses[0]] + responses[1..];
      FirstRightBodySpec(header, checks, responses[1..]);
    }
  }

  /**
   A poll yields only the requested header with a body accepted for it. If it yields nothing, some
   part is outstanding, because no response had the header, or none an acceptable body.
   */
  lemma PollBlockSound(s: BlockFetch, headers: seq<Response<Option<Header>>>, bodies: seq<Response<Option<Body>>>,
                       checks: Checks)
    requires s.Right()
    ensures match PollBlock(s, headers, bodies, checks)
            case Done(block) => HashOf(block.0) == s.hash && checks.bodyOk(block.1, block.0)
            case Waits(t) =>
              && t.hash == s.hash && t.Right() && (t.header.None? || t.body.None?)
              && (t.header.None? ==> forall r :: r in headers ==> !RightHeader(s.hash, r))
              && (t.header.Some? ==> forall r :: r in bodies ==> !RightBody(t.header.value, checks, r))
  {
    FirstHeaderSpec(s.hash, headers);
    var header := if s.header.Some? then s.header else FirstHeader(s.hash, headers);
    if header.Some? {
      FirstRightBodySpec(header.value, checks, bodies);
    }
  }

  /**
   A poll completes the block exactly if the header is there or among the responses, and so is a body
   accepted for it. Until then it keeps the header, and the first body that came before the header.
   */
  lemma PollBlockIff(s: BlockFetch, headers: seq<Response<Option<Header>>>, bodies: seq<Response<Option<Body>>>,
                     checks: Checks)
    requires s.Right() && s.hash.HashOf?
    ensures var h, r := s.hash.header, PollBlock(s, headers, bodies, checks);
            var known := s.header.Some? || Reply(Some(h)) in headers;
            && (r.Done? <==> known && (|| (s.body.Some? && checks.bodyOk(s.body.value, h))
                                       || exists b :: Reply(Some(b)) in bodies && checks.bodyOk(b, h)))
            && (r.Done? ==> r.result.0 == h && checks.bodyOk(r.result.1, h)
                            && (s.body == Some(r.result.1) || Reply(Some(r.result.1)) in bodies))
            && (r.Waits? ==> r.state.hash == s.hash && r.state.header == if known then Some(h) else None)
            && (r.Waits? && known ==> r.state.body == None)
            && (r.Waits? && !known && s.body.Some? ==> r.state.body == s.body)
            && (r.Waits? && !known && s.body.None? ==>
                  if r.state.body.Some? then Reply(r.state.body) in bodies
                  else forall b :: Reply(Some(b)) !in bodies)
  {
    var h := s.hash.header;
    FirstHeaderSpec(s.hash, headers);
    assert forall r :: r in headers && RightHeader(s.hash, r) ==> r == Reply(Some(h));
    assert Reply(Some(h)) in headers ==> RightHeader(s.hash, Reply(Some(h)));
    FirstRightBodySpec(h, checks, bodies);
    FirstBodySpec(bodies);
    forall b | Reply(Some(b)) in bodies && checks.bodyOk(b, h)
      ensures RightBody(h, checks, Reply(Some(b)))
    {
    }
  }

  lemma {:induction false} FirstBodySpec(responses: seq<Response<Option<Body>>>)
    ensures FirstBody(responses).Some? ==> Reply(FirstBody(responses)) in responses
    ensures FirstBody(responses).None? ==> forall b :: Reply(Some(b)) !in responses
  {
    if responses != [] {
      assert responses == [responses[0]] + responses[1..];
      FirstBodySpec(responses[1..]);
    }
  }

  class FetchFullBlock {
    const blockHash: Hash
    const checks: Checks
    var headerPending: bool
    var bodyPending: bool
    var header: Option<Header>
    var body: Option<Body>

    ghost function View(): BlockFetch
      reads this
    {
      BlockFetch(blockHash, header, body)
    }

    /** A part is outstanding exactly while it is not there. */
    ghost predicate Valid()
      reads this
    {
      (headerPending <==> header.None?) && (bodyPending <==> body.None?) && View().Right()
    }

    constructor (blockHash: Hash, checks: Checks)
      ensures Valid() && View() == BlockFetch(blockHash, None, None) && this.checks == checks
    {
      this.blockHash, this.checks := blockHash, checks;
      headerPending, bodyPending, header, body := true, true, None, None;
    }

    method OnHeaderResponse(response: Response<Option<Header>>)
      modifies this`header
      ensures header == if RightHeader(blockHash, response) then response.value else old(header)
    {
      match response
      case Reply(Some(h)) =>
        if HashOf(h) == blockHash {
          header := Some(h);
        }
      case Reply(None) =>
      case Failed =>
    }

    method OnBodyResponse(response: Response<Option<Body>>)
      modifies this`body
      ensures body == if response.Reply? && response.value.Some? then response.value else old(body)
    {
      match response
      case Reply(Some(b)) => body := Some(b);
      case Reply(None) =>
      case Failed =>
    }

    /** The loop comes to what `PollBlock` says, whichever parts the responses carry. */
    method Poll(headers: seq<Response<Option<Header>>>, bodies: seq<Response<Option<Body>>>)
        returns (block: Option<(Header, Body)>)
      requires Valid()
      modifies this
      ensures match PollBlock(old(View()), headers, bodies, checks)
              case Done(result) => block == Some(result)
              case Waits(state) => block == None && Valid() && View() == state
    {
      ghost var start := PollBlock(View(), headers, bodies, checks);
      var i, j := 0, 0;
      assert headers[0..] == headers && bodies[0..] == bodies;
      while true
        invariant Valid() && i <= |headers| && j <= |bodies|
        invariant PollBlock(View(), headers[i..], bodies[j..], checks) == start
        decreases |headers| - i + |bodies| - j, if body.Some? then 1 else 0
      {
        if headerPending && i < |headers| {
          assert headers[i..][1..] == headers[i + 1..];
          headerPending := false;
          OnHeaderResponse(headers[i]);
          i := i + 1;
          if header.None? {
            headerPending := true;
            continue;
          }
        }
        if bodyPending && j < |bodies| {
          assert bodies[j..][1..] == bodies[j + 1..];
          bodyPending := false;
          OnBodyResponse(bodies[j]);
          j := j + 1;
          if body.None? {
            bodyPending := true;
            continue;
          }
        }
        if header.Some? && body.Some? {
          var h, b := header.value, body.value;
          header, body := None, None;
          if !checks.bodyOk(b, h) {
            header := Some(h);
            bodyPending := true;
            continue;
          }
          return Some((h, b));
        }
        return None;
      }
    }
  }

  // ---------- a range of headers ----------

  datatype GetHeaders = GetHeaders(start: Hash, limit: nat)

  /** Each header is valid on its own and against the next one down. */
  predicate ValidRange(falling: seq<Header>, headerOk: Header -> bool)
  {
    && (forall i :: 0 <= i < |falling| ==> headerOk(falling[i]))
    && (forall i :: 0 < i < |falling| ==>
                      falling[i - 1].parent == HashOf(falling[i]) && falling[i - 1].number == falling[i].number + 1)
  }

  predicate Accepts(request: GetHeaders, falling: seq<Header>, headerOk: Header -> bool)
  {
    |falling| >= request.limit && |falling| > 0 && HashOf(falling[0]) == request.start && ValidRange(falling, headerOk)
  }

  function FirstAccepted(request: GetHeaders, headerOk: Header -> bool,
                         responses: seq<Response<seq<Header>>>): Option<seq<Header>>
  {
    if responses == [] then None
    else if responses[0].Reply? && Accepts(request, responses[0].value, headerOk) then Some(responses[0].value)
    else FirstAccepted(request, headerOk, responses[1..])
  }

  lemma {:induction false} FirstAcceptedSpec(request: GetHeaders, headerOk: Header -> bool,
                                             responses: seq<Response<seq<Header>>>)
    ensures var first := FirstAccepted(request, headerOk, responses);
            && (first.Some? ==> Accepts(request, first.value, headerOk) && Reply(first.value) in responses)
            && (first.None? <==> forall r :: r in responses && r.Reply? ==> !Accepts(request, r.value, headerOk))
  {
    if responses != [] {
      assert responses == [responses[0]] + responses[1..];
      FirstAcceptedSpec(request, headerOk, responses[1..]);
    }
  }

  /** Retries until a response passes, and yields the first one that does. */
  method PollHeadersRange(request: GetHeaders, headerOk: Header -> bool, responses: seq<Response<seq<Header>>>)
      returns (headers: Option<seq<Header>>)
    requires request.limit > 0
    ensures headers == FirstAccepted(request, headerOk, responses)
  {
    assert responses[0..] == responses;
    for i := 0 to |responses|
      invariant FirstAccepted(request, headerOk, responses[i..]) == FirstAccepted(request, headerOk, responses)
    {
      assert responses[i..][1..] == responses[i + 1..];
      var accepted := OnResponse(request, headerOk, responses[i]);
      if accepted.Some? {
        return accepted;
      }
    }
    return None;
  }

  method OnResponse(request: GetHeaders, headerOk: Header -> bool, response: Response<seq<Header>>)
      returns (headers: Option<seq<Header>>)
    requires request.limit > 0
    ensures headers == if response.Reply? && Accepts(request, response.value, headerOk)
                       then Some(response.value) else None
  {
    match response
    case Failed => return None;
    case Reply(falling) =>
      if |falling| < request.limit {
        return None;
      }
      if HashOf(falling[0]) != request.start {
        return None;
      }
      var valid := ValidateHeaderRange(Reversed(falling), falling, headerOk);
      return if valid then Some(falling) else None;
  }

  /** Checks a rising run from its first header up. */
  method ValidateHeaderRange(rising: seq<Header>, ghost falling: seq<Header>,
                             headerOk: Header -> bool) returns (valid: bool)
    requires rising == Reversed(falling)
    ensures valid <==> ValidRange(falling, headerOk)
  {
    var n := |rising|;
    for i := 0 to n
      invariant forall j :: 0 <= j < i ==> headerOk(rising[j])
      invariant forall j :: 0 < j < i ==>
                  rising[j].parent == HashOf(rising[j - 1]) && rising[j].number == rising[j - 1].number + 1
    {
      if !headerOk(rising[i]) {
        assert rising[i] == falling[n - 1 - i];
        return false;
      }
      if i > 0 && !(rising[i].parent == HashOf(rising[i - 1]) && rising[i].number == rising[i - 1].number + 1) {
        assert rising[i] == falling[n - i - 1] && rising[i - 1] == falling[n - i];
        return false;
      }
    }
    forall i | 0 <= i < |falling|
      ensures headerOk(falling[i])
    {
      assert falling[i] == rising[n - 1 - i];
    }
    forall i | 0 < i < |falling|
      ensures falling[i - 1].parent == HashOf(falling[i]) && falling[i - 1].number == falling[i].number + 1
    {
      assert falling[i] == rising[n - 1 - i] && falling[i - 1] == rising[n - i];
    }
    return true;
  }

  /** The numbers go down by one along a run of headers, each of which passes the check. */
  ghost predicate CheckedRun(falling: seq<Header>, headerOk: Header -> bool)
  {
    && (forall x :: x in falling ==> headerOk(x))
    && forall i :: 0 < i < |falling| ==> falling[i - 1].number == falling[i].number + 1
  }

  /** An accepted range is a parent-linked run of checked headers going down from the requested hash. */
  lemma AcceptedFalls(request: GetHeaders, falling: seq<Header>, headerOk: Header -> bool)
    requires Accepts(request, falling, headerOk)
    ensures Falling(falling, request.start, falling[|falling| - 1].parent) && |falling| >= request.limit
    ensures CheckedRun(falling, headerOk)
  {
  }

  /** And every such run that is long enough is accepted. */
  lemma FallsAccepted(request: GetHeaders, falling: seq<Header>, headerOk: Header -> bool)
    requires |falling| >= request.limit && |falling| > 0 && CheckedRun(falling, headerOk)
    requires Falling(falling, request.start, falling[|falling| - 1].parent)
    ensures Accepts(request, falling, headerOk)
  {
    assert forall i :: 0 <= i < |falling| ==> falling[i] in falling;
  }

  // ---------- a block with its ancestors ----------

  /** A fetch of a block and then, once the block is there, of its ancestors' headers. */
  datatype AncestorFetch = AncestorFetch(fetch: BlockFetch, count: nat, block: Option<Header>) {

    predicate Right() {
      count > 0 && fetch.Right() && (block.Some? ==> HashOf(block.value) == fetch.hash)
    }

    function Request(): GetHeaders
      requires block.Some?
    {
      GetHeaders(block.value.parent, count)
    }
  }

  function PollRange(s: AncestorFetch, ranges: seq<Response<seq<Header>>>, checks: Checks)
      : Polling<AncestorFetch, (Header, seq<Header>)>
    requires s.block.Some?
  {
    var ancestors := FirstAccepted(s.Request(), checks.headerOk, ranges);
    if ancestors.Some? then Done((s.block.value, ancestors.value)) else Waits(s)
  }

  function PollAncestors(s: AncestorFetch, headers: seq<Response<Option<Header>>>, bodies: seq<Response<Option<Body>>>,
                         ranges: seq<Response<seq<Header>>>, checks: Checks)
      : Polling<AncestorFetch, (Header, seq<Header>)>
  {
    if s.block.Some? then PollRange(s, ranges, checks)
    else
      match PollBlock(s.fetch, headers, bodies, checks)
      case Waits(f) => Waits(s.(fetch := f))
      case Done(block) =>
        PollRange(AncestorFetch(BlockFetch(s.fetch.hash, None, None), s.count, Some(block.0)), ranges, checks)
  }

  /**
   A poll yields the requested block with at least the requested number of linked headers below it.
   If it yields nothing, a part of the block is outstanding, or no range response was acceptable.
   */
  lemma PollAncestorsSound(s: AncestorFetch, headers: seq<Response<Option<Header>>>,
                           bodies: seq<Response<Option<Body>>>,
                           ranges: seq<Response<seq<Header>>>, checks: Checks)
    requires s.Right()
    ensures match PollAncestors(s, headers, bodies, ranges, checks)
            case Done(r) =>
              && HashOf(r.0) == s.fetch.hash && |r.1| >= s.count && CheckedRun(r.1, checks.headerOk)
              && exists to :: Falling(r.1, r.0.parent, to)
            case Waits(t) =>
              && t.Right() && t.fetch.hash == s.fetch.hash && t.count == s.count && (s.block.Some? ==> t == s)
              && (t.block.None? ==> t.fetch.header.None? || t.fetch.body.None?)
              && (t.block.Some? ==>
                    forall r :: r in ranges && r.Reply? ==> !Accepts(t.Request(), r.value, checks.headerOk))
  {
    PollBlockSound(s.fetch, headers, bodies, checks);
    var block := if s.block.Some? then s.block
                 else match PollBlock(s.fetch, headers, bodies, checks) case Waits(_) => None case Done(b) => Some(b.0);
    if block.Some? {
      var request := GetHeaders(block.value.parent, s.count);
      FirstAcceptedSpec(request, checks.headerOk, ranges);
      var ancestors := FirstAccepted(request, checks.headerOk, ranges);
      if ancestors.Some? {
        AcceptedFalls(request, ancestors.value, checks.headerOk);
      }
    }
  }

  /** The fetch completes exactly if its block does, or has, and one of the range responses is acceptable. */
  lemma PollAncestorsIff(s: AncestorFetch, headers: seq<Response<Option<Header>>>,
                         bodies: seq<Response<Option<Body>>>, ranges: seq<Response<seq<Header>>>, checks: Checks)
    requires s.Right() && s.fetch.hash.HashOf?
    ensures PollAncestors(s, headers, bodies, ranges, checks).Done? <==>
            && (s.block.Some? || PollBlock(s.fetch, headers, bodies, checks).Done?)
            && exists r :: Reply(r) in ranges &&
                           Accepts(GetHeaders(s.fetch.hash.header.parent, s.count), r, checks.headerOk)
  {
    PollBlockSound(s.fetch, headers, bodies, checks);
    var request := GetHeaders(s.fetch.hash.header.parent, s.count);
    FirstAcceptedSpec(request, checks.headerOk, ranges);
    forall r | r in ranges && r.Reply?
      ensures r == Reply(r.value)
    {
    }
  }

  datatype Progress = AtBlock | AtAncestors(block: Header)

  class FetchFullBlockWithAncestors {
    const blockHash: Hash
    const ancestorCount: nat
    const fetch: FetchFullBlock
    var state: Progress

    ghost function View(): AncestorFetch
      reads this, fetch
    {
      if state.AtBlock? then AncestorFetch(fetch.View(), ancestorCount, None)
      else AncestorFetch(BlockFetch(blockHash, None, None), ancestorCount, Some(state.block))
    }

    ghost predicate Valid()
      reads this, fetch
    {
      fetch.blockHash == blockHash && (state.AtBlock? ==> fetch.Valid()) && View().Right()
    }

    constructor (blockHash: Hash, ancestorCount: nat, checks: Checks)
      requires ancestorCount > 0
      ensures Valid() && View() == AncestorFetch(BlockFetch(blockHash, None, None), ancestorCount, None)
      ensures fresh(fetch) && fetch.checks == checks
    {
      this.blockHash, this.ancestorCount, state := blockHash, ancestorCount, AtBlock;
      fetch := new FetchFullBlock(blockHash, checks);
    }

    /** The loop comes to what `PollAncestors` says. */
    method Poll(headers: seq<Response<Option<Header>>>, bodies: seq<Response<Option<Body>>>,
                ranges: seq<Response<seq<Header>>>)
        returns (r: Option<(Header, seq<Header>)>)
      requires Valid()
      modifies this, fetch
      ensures match PollAncestors(old(View()), headers, bodies, ranges, fetch.checks)
              case Done(result) => r == Some(result)
              case Waits(s) => r == None && Valid() && View() == s
    {
      PollBlockSound(View().fetch, headers, bodies, fetch.checks);
      if state.AtBlock? {
        var block := fetch.Poll(headers, bodies);
        if block.None? {
          return None;
        }
        state := AtAncestors(block.value.0);
      }
      r := PollHeaders(ranges);
    }

    method PollHeaders(ranges: seq<Response<seq<Header>>>) returns (r: Option<(Header, seq<Header>)>)
      requires state.AtAncestors? && ancestorCount > 0
      ensures match PollRange(View(), ranges, fetch.checks)
              case Done(result) => r == Some(result)
              case Waits(s) => r == None && View() == s
    {
      var request := GetHeaders(state.block.parent, ancestorCount);
      var ancestors := PollHeadersRange(request, fetch.checks.headerOk, ranges);
      r := if ancestors.Some? then Some((state.block, ancestors.value)) else None;
    }
  }

  // ---------- when a range can be served at all ----------

  /** The first `count` headers going down from `h`. */
  ghost function Downward(h: Hash, count: nat): seq<Header>
    requires Depth(h) >= count
  {
    if count == 0 then [] else [h.header] + Downward(h.header.parent, count - 1)
  }

  lemma {:induction false} DownwardAccepted(h: Hash, count: nat, headerOk: Header -> bool)
    requires Numbered(h) && 0 < count <= h.header.number + 1 && Depth(h) >= count
    requires forall x :: AncestorOrSelf(HashOf(x), h) ==> headerOk(x)
    ensures Accepts(GetHeaders(h, count), Downward(h, count), headerOk)
    decreases count
  {
    assert AncestorOrSelf(h, h);
    if count > 1 {
      var rest := Downward(h.header.parent, count - 1);
      DownwardAccepted(h.header.parent, count - 1, headerOk);
      assert rest[0] == h.header.parent.header;
      var all := Downward(h, count);
      forall i | 0 < i < |all|
        ensures all[i - 1].parent == HashOf(all[i]) && all[i - 1].number == all[i].number + 1
      {
        if i > 1 { assert all[i] == rest[i - 1] && all[i - 1] == rest[i - 2]; }
      }
    }
  }

  /**
   A header range can be answered exactly when the chain is long enough: on a shorter chain,
   such as below a finalized block numbered under 256, the request retries forever.
   */
  lemma RangeServableIff(h: Hash, limit: nat, headerOk: Header -> bool)
    requires Numbered(h) && limit > 0
    requires forall x :: AncestorOrSelf(HashOf(x), h) ==> headerOk(x)
    ensures (exists falling :: Accepts(GetHeaders(h, limit), falling, headerOk)) <==> limit <= h.header.number + 1
  {
    DepthOfNumbered(h);
    if limit <= h.header.number + 1 {
      DownwardAccepted(h, limit, headerOk);
    } else {
      forall falling: seq<Header> | Accepts(GetHeaders(h, limit), falling, headerOk)
        ensures false
      {
        AcceptedFalls(GetHeaders(h, limit), falling, headerOk);
        FallingDepth(falling, h, falling[|falling| - 1].parent);
      }
    }
  }
}
