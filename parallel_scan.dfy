/** `ParallelScanPaginator`: one scan paginator per segment, a queue of
    segments with a request outstanding, and a resumable snapshot of every
    segment's progress. Which outstanding segment answers first
    (`Promise.race`) is an arbitrary choice. */
module ParallelScan {
  import opened Wrappers
  import opened Text
  import opened Values
  import opened Pagination
  import CC = ConsumedCapacity

  /** A segment's entry in a `ParallelScanState`. */
  datatype ScanState = Uninitialized | Initialized(lastEvaluatedKey: Option<Key>)

  /** `nullScanState(n)`. */
  function NullScanState(n: nat): (states: seq<ScanState>)
    ensures |states| == n
    ensures forall i :: 0 <= i < n ==> states[i] == Uninitialized
  {
    seq(n, i => Uninitialized)
  }

  /** A segment whose first page has not been fetched, or that has a key to
      resume from, still has a request to send. */
  predicate Armed(state: ScanState)
  {
    state.Uninitialized? || state.lastEvaluatedKey.Some?
  }

  function SavedKey(state: ScanState): Option<Key>
  {
    if state.Uninitialized? then None else state.lastEvaluatedKey
  }

  /** The request a segment's paginator is built with. */
  function SegmentRequest(input: Request, segment: nat, state: ScanState): (req: Request)
    ensures req.segment == Some(segment) && req.exclusiveStartKey == SavedKey(state)
    ensures req.(segment := input.segment, exclusiveStartKey := input.exclusiveStartKey) == input
  {
    input.(segment := Some(segment), exclusiveStartKey := SavedKey(state))
  }

  /** The request a segment in the given state sends next, if any. */
  function Cursor(input: Request, segment: nat, state: ScanState): (next: Option<Request>)
    ensures next.Some? <==> Armed(state)
  {
    if Armed(state) then Some(SegmentRequest(input, segment, state)) else None
  }

  /** The constructor's error for a scan state of the wrong length. */
  function LengthMismatch(expected: nat, actual: nat): string
  {
    "Parallel scan state must have a length equal to the number of scan segments. Expected an array of "
      + NatToString(expected) + " butreceived an array with " + NatToString(actual) + " elements."
  }

  /** `pending` without any entry for `segment`. */
  function Without(pending: seq<nat>, segment: nat): (rest: seq<nat>)
    ensures forall s :: s in rest <==> s in pending && s != segment
    ensures Distinct(pending) ==> Distinct(rest)
    decreases |pending|
  {
    if |pending| == 0 then []
    else
      var rest := Without(pending[..|pending| - 1], segment);
      assert forall s :: s in pending[..|pending| - 1] ==> s in pending;
      DistinctPrefix(pending);
      if pending[|pending| - 1] == segment then rest
      else
        DistinctSnoc(rest, pending[|pending| - 1]);
        rest + [pending[|pending| - 1]]
  }

  lemma DistinctPrefix(xs: seq<nat>)
    requires |xs| > 0
    ensures Distinct(xs) ==> Distinct(xs[..|xs| - 1]) && xs[|xs| - 1] !in xs[..|xs| - 1]
  {
    if Distinct(xs) {
      var ys := xs[..|xs| - 1];
      forall i, j | 0 <= i < j < |ys|
        ensures ys[i] != ys[j]
      {
        assert xs[i] != xs[j];
      }
    }
  }

  lemma DistinctSnoc(xs: seq<nat>, x: nat)
    ensures Distinct(xs) && x !in xs ==> Distinct(xs + [x])
  {
  }

  /** The scan paginator a segment starts from, and what it does once armed:
      a segment whose saved state is armed sends exactly its cursor. */
  lemma SegmentStartsAtCursor(input: Request, segment: nat, state: ScanState)
    ensures ScanStart(SegmentRequest(input, segment, state), None).nextRequest == Some(SegmentRequest(input, segment, state))
    ensures Armed(state) ==> ScanStart(SegmentRequest(input, segment, state), None).nextRequest == Cursor(input, segment, state)
  {
  }

  /** A page taken from an armed segment leaves the segment's paginator at the
      cursor of the scan state recorded for it. */
  lemma ResumeMatchesState(input: Request, segment: nat, state: ScanState, page: Page)
    requires Armed(state)
    ensures Resume(SegmentRequest(input, segment, state), page)
         == Cursor(input, segment, Initialized(page.lastEvaluatedKey))
  {
  }

  /** The sum of the segments' item counts. */
  function SumCounts(segments: seq<PagerState>): nat
    decreases |segments|
  {
    if |segments| == 0 then 0 else SumCounts(segments[..|segments| - 1]) + segments[|segments| - 1].count
  }

  function SumScanned(segments: seq<PagerState>): nat
    decreases |segments|
  {
    if |segments| == 0 then 0 else SumScanned(segments[..|segments| - 1]) + segments[|segments| - 1].scannedCount
  }

  /** The `reduce` of `mergeConsumedCapacities` over the segments. */
  function MergeSegments(segments: seq<PagerState>): Result<Option<CC.Report>>
    decreases |segments|
  {
    if |segments| == 0 then Ok(None)
    else
      match MergeSegments(segments[..|segments| - 1])
      case Err(e) => Err(e)
      case Ok(c) => CC.Merge(c, segments[|segments| - 1].consumed)
  }

  /** A parallel paginator's state holds together: one paginator and one
      scan state per segment; outstanding segments are distinct; before
      `return()` a segment with nothing outstanding is finished, and
      `return()` empties the queue; until a rejection, every outstanding or
      armed segment's paginator sends exactly the cursor of its scan state,
      and before `return()` no outstanding segment has failed. */
  ghost predicate Coherent(input: Request, totalSegments: nat, segments: seq<PagerState>, scanState: seq<ScanState>,
                           pending: seq<nat>, failure: Option<string>, returned: bool)
  {
    && |segments| == |scanState| == totalSegments
    && Distinct(pending)
    && (forall s :: s in pending ==> s < totalSegments)
    && (!returned ==> forall i :: 0 <= i < totalSegments && i !in pending ==> scanState[i] == Initialized(None))
    && (returned ==> pending == [])
    && (failure.None? ==> forall i :: 0 <= i < totalSegments && (i in pending || Armed(scanState[i])) ==>
          segments[i].nextRequest == Cursor(input, i, scanState[i]))
    && (failure.None? && !returned ==> forall s :: s in pending ==> segments[s].failure.None?)
  }

  /** An answer recorded for an outstanding segment keeps the state
      together: a page re-queues the segment at the cursor of its new scan
      state, and a finished segment leaves the queue. */
  lemma AnswerKeepsCoherent(backend: Backend, input: Request, totalSegments: nat, segments: seq<PagerState>,
                            scanState: seq<ScanState>, pending: seq<nat>, segment: nat)
    requires Coherent(input, totalSegments, segments, scanState, pending, None, false)
    requires segment in pending && Answer(backend, segments[segment]).result.Ok?
    ensures var o := Answer(backend, segments[segment]);
      var rest := Without(pending, segment);
      if o.result.value.Yield? then
        Coherent(input, totalSegments, segments[segment := o.state],
                 scanState[segment := Initialized(o.result.value.page.lastEvaluatedKey)], rest + [segment], None, false)
      else
        Coherent(input, totalSegments, segments, scanState[segment := Initialized(None)], rest, None, false)
  {
    var o := Answer(backend, segments[segment]);
    var rest := Without(pending, segment);
    if o.result.value.Yield? {
      ResumeMatchesState(input, segment, scanState[segment], o.result.value.page);
      DistinctSnoc(rest, segment);
    }
  }

  /** What a segment's scan paginator answers when asked for its next page. */
  function Answer(backend: Backend, segment: PagerState): Outcome
  {
    Advance(backend, ScanOp, None, segment)
  }

  /** Since the state `origin`, `originState`, `originPending`: no segment
      left the queue except after answering that it was finished, and no
      segment outside the queue changed. */
  ghost predicate Bookkept(backend: Backend, segments: seq<PagerState>, scanState: seq<ScanState>, pending: seq<nat>,
                           origin: seq<PagerState>, originState: seq<ScanState>, originPending: seq<nat>)
  {
    && |segments| == |origin| == |scanState| == |originState|
    && (forall i :: 0 <= i < |segments| && i !in originPending ==>
          scanState[i] == originState[i] && segments[i] == origin[i])
    && (forall s :: s in pending ==> s in originPending && s < |segments| && segments[s] == origin[s])
    && (forall s :: s in originPending && s !in pending ==>
          && s < |segments|
          && Answer(backend, origin[s]).result == Ok(Done)
          && segments[s] == origin[s] && scanState[s] == Initialized(None))
  }

  /** A finished segment leaving the queue keeps the record. */
  lemma DoneKeepsBookkept(backend: Backend, segments: seq<PagerState>, scanState: seq<ScanState>, pending: seq<nat>,
                          origin: seq<PagerState>, originState: seq<ScanState>, originPending: seq<nat>, segment: nat)
    requires Bookkept(backend, segments, scanState, pending, origin, originState, originPending)
    requires segment in pending && Answer(backend, segments[segment]).result == Ok(Done)
    ensures Bookkept(backend, segments, scanState[segment := Initialized(None)], Without(pending, segment),
                     origin, originState, originPending)
  {
  }

  class ParallelScanPaginator {
    const backend: Backend
    const input: Request
    const totalSegments: nat
    /** The segments' scan paginators, held by value. */
    var segments: seq<PagerState>
    var scanState: seq<ScanState>
    /** Segments with an outstanding request, oldest first. */
    var pending: seq<nat>
    /** The rejection every later `next()` repeats. */
    var failure: Option<string>
    /** Whether `return()` has been called. */
    ghost var returned: bool

    /** The paginator state holds together (see `Coherent`). */
    ghost predicate Valid()
      reads this
    {
      Coherent(input, totalSegments, segments, scanState, pending, failure, returned)
    }

    constructor Build(backend: Backend, input: Request, totalSegments: nat, scanState: seq<ScanState>)
      requires |scanState| == totalSegments
      ensures Valid() && !returned && failure.None?
      ensures this.backend == backend && this.input == input && this.totalSegments == totalSegments
      ensures this.scanState == scanState
      ensures forall i :: 0 <= i < totalSegments ==>
        segments[i] == ScanStart(SegmentRequest(input, i, scanState[i]), None)
      ensures forall i :: 0 <= i < totalSegments ==> (i in pending <==> Armed(scanState[i]))
      ensures forall j, k :: 0 <= j < k < |pending| ==> pending[j] < pending[k]
    {
      this.backend := backend;
      this.input := input;
      this.totalSegments := totalSegments;
      var segments: seq<PagerState> := [];
      var pending: seq<nat> := [];
      for i := 0 to totalSegments
        invariant |segments| == i
        invariant forall k :: 0 <= k < i ==> segments[k] == ScanStart(SegmentRequest(input, k, scanState[k]), None)
        invariant forall s :: s in pending <==> 0 <= s < i && Armed(scanState[s])
        invariant forall j, k :: 0 <= j < k < |pending| ==> pending[j] < pending[k]
        invariant forall j :: 0 <= j < |pending| ==> pending[j] < i
      {
        segments := segments + [ScanStart(SegmentRequest(input, i, scanState[i]), None)];
        if Armed(scanState[i]) {
          pending := pending + [i];
        }
      }
      this.segments := segments;
      this.pending := pending;
      this.scanState := scanState;
      failure := None;
      returned := false;
      forall s | s in pending
        ensures segments[s].nextRequest == Cursor(input, s, scanState[s])
      {
        SegmentStartsAtCursor(input, s, scanState[s]);
      }
    }

    /** `new ParallelScanPaginator(client, input, scanState)`: the state
        defaults to every segment uninitialized and must have one entry per
        segment. */
    static method Create(backend: Backend, input: Request, totalSegments: nat, scanState: Option<seq<ScanState>>)
      returns (r: Result<ParallelScanPaginator>)
      ensures var states := scanState.GetOr(NullScanState(totalSegments));
        && (r.Err? <==> |states| != totalSegments)
        && (r.Err? ==> r.error == LengthMismatch(totalSegments, |states|))
        && (r.Ok? ==> fresh(r.value) && r.value.Valid() && r.value.scanState == states
                      && forall i :: 0 <= i < totalSegments ==> (i in r.value.pending <==> Armed(states[i])))
    {
      var states := if scanState.Some? then scanState.value else NullScanState(totalSegments);
      if |states| != totalSegments {
        return Err(LengthMismatch(totalSegments, |states|));
      }
      var p := new ParallelScanPaginator.Build(backend, input, totalSegments, states);
      return Ok(p);
    }

    /** `count`, `scannedCount`, `consumedCapacity`: over all segments. */
    function Count(): nat
      reads this
    {
      SumCounts(segments)
    }

    function ScannedCount(): nat
      reads this
    {
      SumScanned(segments)
    }

    function ConsumedCapacity(): Result<Option<CC.Report>>
      reads this
    {
      MergeSegments(segments)
    }

    /** `scanState`: a snapshot; until a rejection, a paginator built from it
        arms exactly the segments that still have a request to send, at the
        same cursor. */
    method GetScanState() returns (snapshot: seq<ScanState>)
      requires Valid()
      ensures snapshot == scanState
      ensures failure.None? ==> forall i :: 0 <= i < totalSegments && Armed(snapshot[i]) ==>
        segments[i].nextRequest == ScanStart(SegmentRequest(input, i, snapshot[i]), None).nextRequest
      ensures !returned ==> forall i :: 0 <= i < totalSegments && Armed(snapshot[i]) ==> i in pending
      ensures failure.None? ==> forall i :: 0 <= i < totalSegments && i in pending && !Armed(snapshot[i]) ==>
        segments[i].nextRequest.None?
    {
      snapshot := scanState;
      forall i | 0 <= i < totalSegments && Armed(snapshot[i])
        ensures ScanStart(SegmentRequest(input, i, snapshot[i]), None).nextRequest == Cursor(input, i, snapshot[i])
      {
        SegmentStartsAtCursor(input, i, snapshot[i]);
      }
    }

    /** The loop of `getNext` that takes `segment` out of the queue. */
    static method RemovePending(pending: seq<nat>, segment: nat) returns (rest: seq<nat>)
      ensures rest == Without(pending, segment)
    {
      rest := pending;
      var i := |pending|;
      while i > 0
        invariant 0 <= i <= |pending|
        invariant rest == pending[..i] + Without(pending[i..], segment)
        decreases i
      {
        i := i - 1;
        assert pending[i..] == [pending[i]] + pending[i + 1..];
        WithoutCons(pending[i], pending[i + 1..], segment);
        if rest[i] == segment {
          rest := rest[..i] + rest[i + 1..];
        }
      }
    }

    /** What `next()` has done since the state `origin`, `originState`,
        `originPending`. */
    ghost predicate Progress(origin: seq<PagerState>, originState: seq<ScanState>, originPending: seq<nat>)
      reads this
    {
      Bookkept(backend, segments, scanState, pending, origin, originState, originPending)
    }

    /** One settled promise of `getNext`: the answer of an outstanding segment
        is recorded in its paginator and its scan state, and the segment is
        re-queued at the back if it yielded a page, dropped if it finished,
        and a rejection is kept. */
    method TakeAnswer(segment: nat, ghost origin: seq<PagerState>, ghost originState: seq<ScanState>, ghost originPending: seq<nat>)
      returns (outcome: Outcome)
      requires Valid() && failure.None? && segment in pending
      requires Progress(origin, originState, originPending)
      modifies this
      ensures Valid() && returned == old(returned)
      ensures outcome == Answer(backend, origin[segment]) && segment in originPending
      ensures segments == old(segments)[segment := outcome.state]
      ensures outcome.result.Err? ==>
        failure == Some(outcome.result.error) && scanState == old(scanState) && pending == old(pending)
      ensures outcome.result.Ok? ==> failure.None?
      ensures outcome.result == Ok(Done) ==>
        && scanState == old(scanState)[segment := Initialized(None)]
        && pending == Without(old(pending), segment)
        && |pending| < |old(pending)|
        && Progress(origin, originState, originPending)
      ensures outcome.result.Ok? && outcome.result.value.Yield? ==>
        && scanState == old(scanState)[segment := Initialized(outcome.result.value.page.lastEvaluatedKey)]
        && pending == Without(old(pending), segment) + [segment]
    {
      outcome := Advance(backend, ScanOp, None, segments[segment]);
      segments := segments[segment := outcome.state];
      if outcome.result.Err? {
        failure := Some(outcome.result.error);
        return;
      }
      var step := outcome.result.value;
      AnswerKeepsCoherent(backend, input, totalSegments, old(segments), old(scanState), old(pending), segment);
      scanState := scanState[segment := Initialized(if step.Yield? then step.page.lastEvaluatedKey else None)];
      var rest := RemovePending(pending, segment);
      if step.Yield? {
        pending := rest + [segment];
      } else {
        WithoutShorter(old(pending), segment);
        DoneKeepsBookkept(backend, old(segments), old(scanState), old(pending), origin, originState, originPending, segment);
        assert segments == old(segments);
        pending := rest;
      }
    }

    /** `next()`: takes the answer of any segment with an outstanding request,
        records its progress, re-queues it at the back unless it is
        finished, and yields its page; finished segments yield nothing. A
        rejection is kept and repeated by every later call. */
    method Next() returns (r: Result<Step>)
      requires Valid()
      modifies this
      ensures Valid() && returned == old(returned)
      ensures old(failure).Some? ==> r == Err(old(failure).value) && failure == old(failure) && scanState == old(scanState)
      ensures old(failure).None? && old(pending) == [] ==> r == Ok(Done)
      ensures r == Ok(Done) ==> pending == []
      ensures old(failure).None? && r.Ok? && r.value.Yield? ==>
        && |pending| > 0 && pending[|pending| - 1] in old(pending)
        && r == Answer(backend, old(segments)[pending[|pending| - 1]]).result
        && segments[pending[|pending| - 1]] == Answer(backend, old(segments)[pending[|pending| - 1]]).state
        && scanState[pending[|pending| - 1]] == Initialized(r.value.page.lastEvaluatedKey)
      ensures old(failure).None? && r.Err? ==>
        && failure == Some(r.error)
        && exists s :: s in old(pending) && Answer(backend, old(segments)[s]).result == r
                       && segments[s] == Answer(backend, old(segments)[s]).state
      ensures old(failure).None? ==> forall s :: s in old(pending) && s !in pending ==>
        && Answer(backend, old(segments)[s]).result == Ok(Done)
        && segments[s] == old(segments)[s] && scanState[s] == Initialized(None)
      ensures forall i :: 0 <= i < |segments| && i !in old(pending) ==>
        scanState[i] == old(scanState)[i] && segments[i] == old(segments)[i]
      ensures forall s :: s in pending ==> s in old(pending)
    {
      if failure.Some? {
        return Err(failure.value);
      }
      while pending != []
        invariant Valid() && failure.None? && returned == old(returned)
        invariant Progress(old(segments), old(scanState), old(pending))
        decreases |pending|
      {
        var j :| 0 <= j < |pending|;
        var segment := pending[j];
        assert segment in pending;
        var outcome := TakeAnswer(segment, old(segments), old(scanState), old(pending));
        if outcome.result.Err? {
          return Err(outcome.result.error);
        }
        if outcome.result.value.Yield? {
          assert pending[|pending| - 1] == segment;
          return outcome.result;
        }
      }
      return Ok(Done);
    }

    /** `return()`: clears the queue and interrupts every segment; the
        parallel paginator itself stays usable and reports done. */
    method Return() returns (r: Step)
      requires Valid()
      modifies this
      ensures Valid() && returned
      ensures r == Done && pending == [] && failure == old(failure) && scanState == old(scanState)
      ensures |segments| == |old(segments)|
      ensures forall i :: 0 <= i < |segments| ==> segments[i] == old(segments)[i].(failure := Some(Interrupted))
    {
      pending := [];
      returned := true;
      var interrupted: seq<PagerState> := [];
      for i := 0 to |segments|
        invariant |interrupted| == i
        invariant forall k :: 0 <= k < i ==> interrupted[k] == segments[k].(failure := Some(Interrupted))
      {
        interrupted := interrupted + [segments[i].(failure := Some(Interrupted))];
      }
      segments := interrupted;
      r := Done;
    }
  }

  lemma WithoutCons(x: nat, xs: seq<nat>, segment: nat)
    ensures Without([x] + xs, segment) == (if x == segment then [] else [x]) + Without(xs, segment)
    decreases |xs|
  {
    if |xs| > 0 {
      var ys := [x] + xs;
      assert ys[..|ys| - 1] == [x] + xs[..|xs| - 1];
      WithoutCons(x, xs[..|xs| - 1], segment);
    } else {
      assert [x] + xs == [x];
      assert [x][..0] == [];
    }
  }

  lemma WithoutShorter(pending: seq<nat>, segment: nat)
    requires segment in pending
    ensures |Without(pending, segment)| < |pending|
    decreases |pending|
  {
    if pending[|pending| - 1] != segment {
      assert segment in pending[..|pending| - 1] by {
        var k :| 0 <= k < |pending| && pending[k] == segment;
        assert pending[..|pending| - 1][k] == segment;
      }
      WithoutShorter(pending[..|pending| - 1], segment);
    } else {
      WithoutNoLonger(pending[..|pending| - 1], segment);
    }
  }

  lemma WithoutNoLonger(pending: seq<nat>, segment: nat)
    ensures |Without(pending, segment)| <= |pending|
    decreases |pending|
  {
    if |pending| > 0 {
      WithoutNoLonger(pending[..|pending| - 1], segment);
    }
  }
}
