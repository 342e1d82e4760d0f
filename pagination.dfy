/** The query iterator's paginators: `DynamoDbPaginator` with its two
    concrete kinds, `ScanPaginator` and `QueryPaginator`. Each `next()` sends
    at most one request to DynamoDB and rewrites the continuation cursor from
    the response. DynamoDB itself is an oracle from request to response. */
module Pagination {
  import opened Wrappers
  import opened Values
  import CC = ConsumedCapacity

  type Item = seq<(string, AttributeValue)>
  type Key = seq<(string, AttributeValue)>

  /** Which command a paginator sends. */
  datatype Operation = ScanOp | QueryOp

  /** A `ScanInput` or `QueryInput`: the fields the paginators read or
      rewrite, and the rest of the request (`others`), passed through as is. */
  datatype Request = Request(
    tableName: string,
    segment: Option<nat>,
    totalSegments: Option<nat>,
    limit: Option<int>,
    exclusiveStartKey: Option<Key>,
    others: seq<(string, string)>)

  /** A `DynamoDbResultsPage`: one `Scan` or `Query` response. */
  datatype Page = Page(
    items: Option<seq<Item>>,
    scannedCount: Option<nat>,
    lastEvaluatedKey: Option<Key>,
    consumedCapacity: Option<CC.Report>)

  /** DynamoDB as seen by a client: the response (or the rejection) to each
      request, and for each request the number of pages a scan or query
      starting there still has to return, whatever its page size. */
  datatype Backend = Backend(respond: (Operation, Request) -> Result<Page>, remaining: (Operation, Request) -> nat)

  /** An `IteratorResult` of a paginator. */
  datatype Step = Done | Yield(page: Page)

  const Interrupted := "Iteration has been manually interrupted and may not be resumed"

  function ItemsOf(page: Page): seq<Item>
  {
    page.items.GetOr([])
  }

  /** Every continuation key moves a scan or query closer to its end. */
  ghost predicate Finite(backend: Backend)
  {
    forall op, req :: backend.respond(op, req).Ok? && backend.respond(op, req).value.lastEvaluatedKey.Some? ==>
      backend.remaining(op, req.(limit := None, exclusiveStartKey := backend.respond(op, req).value.lastEvaluatedKey))
        < backend.remaining(op, req.(limit := None))
  }

  /** DynamoDB never returns more items than the request's `Limit`. */
  ghost predicate HonoursLimit(backend: Backend)
  {
    forall op, req :: backend.respond(op, req).Ok? && req.limit.Some? ==>
      |ItemsOf(backend.respond(op, req).value)| <= if req.limit.value < 0 then 0 else req.limit.value
  }

  /** `getNextPageSize(requested)`: the requested size when there is no
      overall limit, else the smaller of it and what is left of the limit. */
  function PageSize(limit: Option<int>, count: nat, requested: Option<int>): (size: Option<int>)
    ensures limit.None? ==> size == requested
    ensures limit.Some? ==> size.Some? && size.value <= limit.value - count
    ensures limit.Some? && requested.Some? ==> size.value <= requested.value
    ensures limit.Some? ==> size.value == limit.value - count || (requested.Some? && size == requested)
  {
    if limit.None? then requested
    else if requested.Some? && requested.value < limit.value - count then requested
    else Some(limit.value - count)
  }

  /** The private state of a paginator. `failure` is the rejection every
      later `next()` repeats (the chained `lastResolved` promise). */
  datatype PagerState = PagerState(
    count: nat,
    scannedCount: nat,
    lastKey: Option<Key>,
    consumed: Option<CC.Report>,
    failure: Option<string>,
    nextRequest: Option<Request>)

  /** The state a `ScanPaginator` starts in: its stored request already has
      its `Limit` capped by the overall limit. */
  function ScanStart(input: Request, limit: Option<int>): (s: PagerState)
    ensures s.nextRequest == Some(input.(limit := PageSize(limit, 0, input.limit)))
  {
    PagerState(0, 0, None, None, None, Some(input.(limit := PageSize(limit, 0, input.limit))))
  }

  /** The state a `QueryPaginator` starts in: a plain copy of the input. */
  function QueryStart(input: Request): (s: PagerState)
    ensures s.nextRequest == Some(input)
  {
    PagerState(0, 0, None, None, None, Some(input))
  }

  /** What one `next()` does: its result, the new state, the request sent
      (if any) and the response received (if any). */
  datatype Outcome = Outcome(result: Result<Step>, state: PagerState, sent: Option<Request>, received: Option<Page>)

  /** `next()` followed by `getNext()`, on a paginator of the given kind. */
  function Advance(backend: Backend, op: Operation, limit: Option<int>, s: PagerState): (o: Outcome)
    ensures s.failure.Some? ==> o == Outcome(Err(s.failure.value), s, None, None)
    ensures s.failure.None? && (s.nextRequest.None? || (limit.Some? && s.count >= limit.value)) ==>
      o == Outcome(Ok(Done), s, None, None)
    ensures o.result.Ok? && o.result.value.Done? ==> o.state == s && o.sent.None?
    ensures o.result.Err? ==> o.state.failure == Some(o.result.error)
    ensures o.result.Ok? && o.result.value.Yield? ==>
      o.received == Some(o.result.value.page) && o.sent.Some? && o.state.failure.None?
    ensures o.sent.Some? ==> s.nextRequest.Some? && o.sent.value == s.nextRequest.value.(limit := o.sent.value.limit)
    ensures o.received.Some? ==> o.sent.Some? && backend.respond(op, o.sent.value) == Ok(o.received.value)
  {
    if s.failure.Some? then Outcome(Err(s.failure.value), s, None, None)
    else if limit.Some? && s.count >= limit.value then Outcome(Ok(Done), s, None, None)
    else if s.nextRequest.None? then Outcome(Ok(Done), s, None, None)
    else
      var req := Outgoing(limit, s);
      match backend.respond(op, req)
      case Err(e) => Outcome(Err(e), s.(failure := Some(e)), Some(req), None)
      case Ok(page) => Absorb(s, req, page)
  }

  /** The stored request with its page size recomputed. */
  function Outgoing(limit: Option<int>, s: PagerState): Request
    requires s.nextRequest.Some?
  {
    s.nextRequest.value.(limit := PageSize(limit, s.count, s.nextRequest.value.limit))
  }

  /** The cursor after a response: the stored request resumed from the
      page's key, or none when the page has no key. */
  function Resume(stored: Request, page: Page): (next: Option<Request>)
    ensures next.Some? <==> page.lastEvaluatedKey.Some?
    ensures next.Some? ==> next.value == stored.(exclusiveStartKey := page.lastEvaluatedKey)
  {
    if page.lastEvaluatedKey.Some? then Some(stored.(exclusiveStartKey := page.lastEvaluatedKey)) else None
  }

  /** A received page folded into the state: cursor, last key, counters and
      consumed capacity; a capacity report that cannot be merged rejects. */
  function Absorb(s: PagerState, req: Request, page: Page): (o: Outcome)
    requires s.nextRequest.Some? && s.failure.None?
    ensures o.sent == Some(req) && o.received == Some(page)
    ensures o.state.count == s.count + |ItemsOf(page)|
    ensures o.state.scannedCount == s.scannedCount + page.scannedCount.GetOr(0)
    ensures o.state.lastKey == page.lastEvaluatedKey
    ensures o.state.nextRequest == Resume(s.nextRequest.value, page)
    ensures o.result.Err? <==> CC.Merge(s.consumed, page.consumedCapacity).Err?
    ensures o.result.Err? ==> o.result.error == CC.Merge(s.consumed, page.consumedCapacity).error
                              && o.state.failure == Some(o.result.error)
    ensures o.result.Ok? ==> o.result.value == Yield(page) && o.state.failure.None?
                             && Ok(o.state.consumed) == CC.Merge(s.consumed, page.consumedCapacity)
  {
    var s1 := s.(nextRequest := Resume(s.nextRequest.value, page), lastKey := page.lastEvaluatedKey,
                 count := s.count + |ItemsOf(page)|, scannedCount := s.scannedCount + page.scannedCount.GetOr(0));
    match CC.Merge(s.consumed, page.consumedCapacity)
    case Err(e) => Outcome(Err(e), s1.(failure := Some(e)), Some(req), Some(page))
    case Ok(c) => Outcome(Ok(Yield(page)), s1.(consumed := c), Some(req), Some(page))
  }

  // ---------------------------------------------------------------------------
  // What a paginator's state says about the pages it has received

  function TotalItems(pages: seq<Page>): nat
    decreases |pages|
  {
    if |pages| == 0 then 0 else TotalItems(pages[..|pages| - 1]) + |ItemsOf(pages[|pages| - 1])|
  }

  function TotalScanned(pages: seq<Page>): nat
    decreases |pages|
  {
    if |pages| == 0 then 0 else TotalScanned(pages[..|pages| - 1]) + pages[|pages| - 1].scannedCount.GetOr(0)
  }

  /** The running `mergeConsumedCapacities` over the pages' reports. */
  function MergeAll(pages: seq<Page>): Result<Option<CC.Report>>
    decreases |pages|
  {
    if |pages| == 0 then Ok(None)
    else
      match MergeAll(pages[..|pages| - 1])
      case Err(e) => Err(e)
      case Ok(c) => CC.Merge(c, pages[|pages| - 1].consumedCapacity)
  }

  function LastKeyOf(pages: seq<Page>): Option<Key>
  {
    if |pages| == 0 then None else pages[|pages| - 1].lastEvaluatedKey
  }

  /** The request a paginator whose first stored request was `first` sends
      next after receiving `pages`: the same request resumed from the last
      page's key, or none once a page came back without one. */
  function Continuation(first: Request, pages: seq<Page>): Option<Request>
  {
    if |pages| == 0 then Some(first)
    else if LastKeyOf(pages).Some? then Some(first.(exclusiveStartKey := LastKeyOf(pages)))
    else None
  }

  /** The paginator's counters, last key, capacity and cursor are exactly
      those of the pages it has received. */
  predicate Accounts(first: Request, s: PagerState, pages: seq<Page>)
  {
    && s.count == TotalItems(pages)
    && s.scannedCount == TotalScanned(pages)
    && s.lastKey == LastKeyOf(pages)
    && (s.failure.None? ==> MergeAll(pages) == Ok(s.consumed))
    && s.nextRequest == Continuation(first, pages)
  }

  function Received(o: Outcome): seq<Page>
  {
    if o.received.Some? then [o.received.value] else []
  }

  lemma AdvanceAccounts(backend: Backend, op: Operation, limit: Option<int>, first: Request, s: PagerState, pages: seq<Page>)
    requires Accounts(first, s, pages)
    ensures Accounts(first, Advance(backend, op, limit, s).state, pages + Received(Advance(backend, op, limit, s)))
  {
    var o := Advance(backend, op, limit, s);
    if o.received.Some? {
      var pages' := pages + [o.received.value];
      assert pages'[..|pages'| - 1] == pages;
    } else {
      assert pages + Received(o) == pages;
    }
  }

  /** With an overall limit, no request asks for more than what is left of
      it; without one, the stored page size is sent unchanged. */
  lemma AdvanceRespectsLimit(backend: Backend, op: Operation, limit: Option<int>, s: PagerState)
    requires Advance(backend, op, limit, s).sent.Some?
    ensures var sent := Advance(backend, op, limit, s).sent.value;
      && s.nextRequest.Some?
      && (limit.None? ==> sent == s.nextRequest.value)
      && (limit.Some? ==> s.count < limit.value && sent.limit.Some? && sent.limit.value <= limit.value - s.count)
  {
  }

  /** When DynamoDB honours `Limit`, a paginator never counts more items
      than its overall limit. */
  lemma {:induction false} AdvanceStaysWithinLimit(backend: Backend, op: Operation, limit: Option<int>, s: PagerState)
    requires HonoursLimit(backend)
    requires limit.Some? && s.count <= limit.value
    ensures Advance(backend, op, limit, s).state.count <= limit.value
  {
    var o := Advance(backend, op, limit, s);
    if o.received.Some? {
      var req := o.sent.value;
      assert backend.respond(op, req).Ok? && req.limit.Some?;
      assert |ItemsOf(backend.respond(op, req).value)| <= if req.limit.value < 0 then 0 else req.limit.value;
    }
  }

  /** What is left of a paginator's scan or query. */
  function Pending(backend: Backend, op: Operation, s: PagerState): nat
  {
    if s.failure.Some? || s.nextRequest.None? then 0
    else 1 + backend.remaining(op, s.nextRequest.value.(limit := None))
  }

  /** A yielded page: the stored request was sent with its page size
      recomputed, and the cursor now resumes from the page's key. */
  lemma AdvanceYield(backend: Backend, op: Operation, limit: Option<int>, s: PagerState)
    requires Advance(backend, op, limit, s).result.Ok? && Advance(backend, op, limit, s).result.value.Yield?
    ensures var o := Advance(backend, op, limit, s);
      && s.failure.None? && s.nextRequest.Some?
      && o.sent == Some(s.nextRequest.value.(limit := PageSize(limit, s.count, s.nextRequest.value.limit)))
      && o.state.failure.None?
      && o.state.nextRequest == if o.received.value.lastEvaluatedKey.Some?
           then Some(s.nextRequest.value.(exclusiveStartKey := o.received.value.lastEvaluatedKey)) else None
  {
  }

  /** Every yielded page brings a paginator over a finite table closer to
      its end. */
  lemma AdvanceProgresses(backend: Backend, op: Operation, limit: Option<int>, s: PagerState)
    requires Finite(backend)
    requires Advance(backend, op, limit, s).result.Ok? && Advance(backend, op, limit, s).result.value.Yield?
    ensures Pending(backend, op, Advance(backend, op, limit, s).state) < Pending(backend, op, s)
  {
    var o := Advance(backend, op, limit, s);
    AdvanceYield(backend, op, limit, s);
    var key := o.received.value.lastEvaluatedKey;
    if key.Some? {
      ResumeProgresses(backend, op, s.nextRequest.value, o.sent.value, o.received.value);
    }
  }

  /** A page with a key, received for the stored request with any page
      size, leaves less of a finite table to read from that key on. */
  lemma ResumeProgresses(backend: Backend, op: Operation, stored: Request, req: Request, page: Page)
    requires Finite(backend)
    requires backend.respond(op, req) == Ok(page) && page.lastEvaluatedKey.Some?
    requires req == stored.(limit := req.limit)
    ensures backend.remaining(op, stored.(exclusiveStartKey := page.lastEvaluatedKey).(limit := None))
          < backend.remaining(op, stored.(limit := None))
  {
    var key := page.lastEvaluatedKey;
    assert req.(limit := None, exclusiveStartKey := key) == stored.(exclusiveStartKey := key).(limit := None);
    assert req.(limit := None) == stored.(limit := None);
  }

  // ---------------------------------------------------------------------------
  // The paginator object

  class Paginator {
    const backend: Backend
    const op: Operation
    const limit: Option<int>
    /** The request stored at construction. */
    ghost const first: Request

    var count: nat
    var scannedCount: nat
    var lastEvaluatedKey: Option<Key>
    var consumedCapacity: Option<CC.Report>
    var failure: Option<string>
    var nextRequest: Option<Request>
    /** Every response received so far. */
    ghost var pages: seq<Page>

    function State(): PagerState
      reads this
    {
      PagerState(count, scannedCount, lastEvaluatedKey, consumedCapacity, failure, nextRequest)
    }

    ghost predicate Valid()
      reads this
    {
      Accounts(first, State(), pages)
    }

    /** `new ScanPaginator(client, input, limit)`. */
    constructor Scan(backend: Backend, input: Request, limit: Option<int>)
      ensures Valid() && pages == []
      ensures this.backend == backend && op == ScanOp && this.limit == limit
      ensures State() == ScanStart(input, limit)
    {
      this.backend := backend;
      op := ScanOp;
      this.limit := limit;
      first := input.(limit := PageSize(limit, 0, input.limit));
      count := 0;
      scannedCount := 0;
      lastEvaluatedKey := None;
      consumedCapacity := None;
      failure := None;
      nextRequest := Some(input.(limit := PageSize(limit, 0, input.limit)));
      pages := [];
    }

    /** `new QueryPaginator(client, input, limit)`. */
    constructor Query(backend: Backend, input: Request, limit: Option<int>)
      ensures Valid() && pages == []
      ensures this.backend == backend && op == QueryOp && this.limit == limit
      ensures State() == QueryStart(input)
    {
      this.backend := backend;
      op := QueryOp;
      this.limit := limit;
      first := input;
      count := 0;
      scannedCount := 0;
      lastEvaluatedKey := None;
      consumedCapacity := None;
      failure := None;
      nextRequest := Some(input);
      pages := [];
    }

    /** `next()`. */
    method Next() returns (r: Result<Step>)
      requires Valid()
      modifies this
      ensures Valid()
      ensures r == Advance(backend, op, limit, old(State())).result
      ensures State() == Advance(backend, op, limit, old(State())).state
      ensures pages == old(pages) + Received(Advance(backend, op, limit, old(State())))
    {
      ghost var s0 := State();
      ghost var pages0 := pages;
      ghost var o := Advance(backend, op, limit, s0);
      if failure.Some? {
        r := Err(failure.value);
      } else if limit.Some? && count >= limit.value {
        r := Ok(Done);
      } else {
        var step := GetNext();
        if step.Err? {
          failure := Some(step.error);
          r := Err(step.error);
        } else if step.value.Done? {
          r := Ok(Done);
        } else {
          var page := step.value.page;
          assert o == Absorb(s0, Outgoing(limit, s0), page);
          lastEvaluatedKey := page.lastEvaluatedKey;
          count := count + |ItemsOf(page)|;
          scannedCount := scannedCount + page.scannedCount.GetOr(0);
          var merged := CC.Merge(consumedCapacity, page.consumedCapacity);
          if merged.Err? {
            failure := Some(merged.error);
            r := Err(merged.error);
          } else {
            consumedCapacity := merged.value;
            r := step;
          }
        }
      }
      assert r == o.result && State() == o.state && pages == pages0 + Received(o);
      AdvanceAccounts(backend, op, limit, first, s0, pages0);
    }

    /** `getNext()` of both kinds: send the stored request with its page size
        recomputed, then store the continuation or clear the cursor. */
    method GetNext() returns (r: Result<Step>)
      modifies this
      ensures old(nextRequest).None? ==> r == Ok(Done) && nextRequest == old(nextRequest) && pages == old(pages)
      ensures old(nextRequest).Some? ==>
        match backend.respond(op, Outgoing(limit, old(State())))
        case Err(e) => r == Err(e) && nextRequest == old(nextRequest) && pages == old(pages)
        case Ok(page) =>
          r == Ok(Yield(page)) && pages == old(pages) + [page] && nextRequest == Resume(old(nextRequest).value, page)
      ensures count == old(count) && scannedCount == old(scannedCount) && lastEvaluatedKey == old(lastEvaluatedKey)
      ensures consumedCapacity == old(consumedCapacity) && failure == old(failure)
    {
      if nextRequest.Some? {
        var stored := nextRequest.value;
        var output := backend.respond(op, stored.(limit := PageSize(limit, count, stored.limit)));
        if output.Err? {
          return Err(output.error);
        }
        nextRequest := if output.value.lastEvaluatedKey.Some?
          then Some(stored.(exclusiveStartKey := output.value.lastEvaluatedKey))
          else None;
        pages := pages + [output.value];
        return Ok(Yield(output.value));
      }
      return Ok(Done);
    }

    /** `return()`: every later `next()` rejects. */
    method Return() returns (r: Step)
      requires Valid()
      modifies this
      ensures Valid() && pages == old(pages)
      ensures r == Done
      ensures State() == old(State()).(failure := Some(Interrupted))
    {
      failure := Some(Interrupted);
      r := Done;
    }
  }

}
