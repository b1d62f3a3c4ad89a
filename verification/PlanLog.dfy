/** The requests of a planning run and the statistics kept about them. */
module PlanLog {
  import opened Arith
  import opened PieceMaps
  import opened Leases
  import opened Planner
  import opened SchedulerModel
  import opened RequestLaws
  import opened Requests

  datatype PlanParams = PlanParams(
    mode: Mode, inFlightRequests: nat, minSegment: nat, batchSize: nat, minSplit: nat, maxRequest: nat)

  datatype PlanResult = PlanResult(
    requests: nat, leases: nat, bytes: int, truncated: nat, singleLease: nat, multiLease: nat,
    maxLeases: nat, minBytes: int, maxBytes: int)

  const NOTHING_PLANNED := PlanResult(0, 0, 0, 0, 0, 0, 0, 0, 0)

  /** The counters of a result fit together. */
  ghost predicate Consistent(r: PlanResult) {
    && r.requests == r.singleLease + r.multiLease && r.truncated <= r.requests
    && r.requests <= r.leases <= r.requests * MAX_REQUEST_LEASES && r.maxLeases <= MAX_REQUEST_LEASES
    && (r.requests == 0 <==> r.bytes == 0)
    && (r.requests > 0 ==> 0 < r.minBytes <= r.maxBytes <= r.bytes)
    && (r.requests == 0 ==> r == NOTHING_PLANNED)
  }

  function IsTruncated(reason: Reason): bool {
    !reason.Single? && reason != Planned(false, false, Untouched)
  }

  /** Count one more request. */
  function Counted(r: PlanResult, a: RequestAssignment): PlanResult
    requires a.segments != []
  {
    var bytes := SegmentBytes(a.segments);
    PlanResult(
      r.requests + 1, r.leases + |a.segments|, r.bytes + bytes,
      r.truncated + (if IsTruncated(a.reason) then 1 else 0),
      r.singleLease + (if |a.segments| == 1 then 1 else 0),
      r.multiLease + (if |a.segments| == 1 then 0 else 1),
      Max(r.maxLeases, |a.segments|),
      if r.minBytes == 0 then bytes else Min(r.minBytes, bytes),
      Max(r.maxBytes, bytes))
  }

  /** In dynamic mode no request exceeds the configured maximum, or one piece. */
  ghost predicate RequestsFit(params: PlanParams, g: Geometry, r: PlanResult) {
    params.mode == Dynamic ==> r.maxBytes <= Max(params.maxRequest, g.pieceSize)
  }

  lemma CountedConsistent(r: PlanResult, a: RequestAssignment)
    requires Consistent(r) && 1 <= |a.segments| <= MAX_REQUEST_LEASES && SegmentBytes(a.segments) > 0
    ensures Consistent(Counted(r, a))
  {
  }

  lemma CountedFits(params: PlanParams, g: Geometry, r: PlanResult, a: RequestAssignment)
    requires RequestsFit(params, g, r) && a.segments != []
    requires params.mode == Dynamic ==> SegmentBytes(a.segments) <= Max(params.maxRequest, g.pieceSize)
    ensures RequestsFit(params, g, Counted(r, a))
  {
  }

  function Flatten(queue: seq<seq<Segment>>): seq<Segment> {
    if queue == [] then [] else queue[0] + Flatten(queue[1..])
  }

  lemma {:induction false} FlattenAppend(queue: seq<seq<Segment>>, segs: seq<Segment>)
    ensures Flatten(queue + [segs]) == Flatten(queue) + segs
  {
    if queue == [] {
      assert [segs][1..] == [];
      assert queue + [segs] == [segs];
    } else {
      assert (queue + [segs])[1..] == queue[1..] + [segs];
      FlattenAppend(queue[1..], segs);
      assert queue[0] + (Flatten(queue[1..]) + segs) == queue[0] + Flatten(queue[1..]) + segs;
    }
  }

  lemma {:induction false} SegmentsPositive(segs: seq<Segment>)
    requires segs != [] && forall i :: 0 <= i < |segs| ==> segs[i].start < segs[i].end
    ensures SegmentBytes(segs) > 0
  {
    if |segs| > 1 {
      SegmentsPositive(segs[1..]);
    } else {
      assert segs[1..] == [];
    }
  }

  // ----- the log of a run

  /** One planned request: the scheduler before and after it, and the slots taken then. */
  datatype Entry = Entry(before: State, after: State, occupied: nat, a: RequestAssignment)

  /** The request is chosen as the mode prescribes, for the slots still free. */
  ghost predicate EntryOk(params: PlanParams, e: Entry) {
    var slots, a := Max(params.inFlightRequests - e.occupied, 0), e.a;
    && e.occupied < params.inFlightRequests && OneRun(e.before, e.after, a.segments, 0)
    && match params.mode
       case Dynamic => DynamicRequest(e.before, slots, params.minSplit, params.maxRequest, 0, a)
       case Fixed =>
         FixedRequest(e.before, e.after, slots, params.minSegment, params.batchSize, Max(slots - 1, 0), 0, a)
  }

  ghost predicate LogOk(params: PlanParams, log: seq<Entry>) {
    forall i :: 0 <= i < |log| ==> EntryOk(params, log[i])
  }

  lemma EntryHolds(params: PlanParams, e: Entry)
    requires e.occupied < params.inFlightRequests && OneRun(e.before, e.after, e.a.segments, 0)
    requires params.mode == Dynamic ==>
               DynamicRequest(e.before, Max(params.inFlightRequests - e.occupied, 0), params.minSplit,
                              params.maxRequest, 0, e.a)
    requires params.mode == Fixed ==>
               FixedRequest(e.before, e.after, Max(params.inFlightRequests - e.occupied, 0), params.minSegment,
                            params.batchSize, Max(params.inFlightRequests - e.occupied - 1, 0), 0, e.a)
    ensures EntryOk(params, e)
  {
    hide OneRun, DynamicRequest, FixedRequest;
  }

  function Segments(log: seq<Entry>): seq<seq<Segment>> {
    seq(|log|, i requires 0 <= i < |log| => log[i].a.segments)
  }

  function Truncated(log: seq<Entry>): set<nat> {
    set i: nat | i < |log| && IsTruncated(log[i].a.reason)
  }

  function SingleLease(log: seq<Entry>): set<nat> {
    set i: nat | i < |log| && |log[i].a.segments| == 1
  }

  /** `m` is the largest of the values `f` takes below `n`, or zero if there are none. */
  ghost predicate IsLargest(f: nat -> int, n: nat, m: int) {
    (forall i: nat :: i < n ==> f(i) <= m) && if n == 0 then m == 0 else exists i: nat :: i < n && f(i) == m
  }

  ghost predicate IsSmallest(f: nat -> int, n: nat, m: int) {
    (forall i: nat :: i < n ==> f(i) >= m) && if n == 0 then m == 0 else exists i: nat :: i < n && f(i) == m
  }

  function LeaseCount(log: seq<Entry>): nat -> int {
    (i: nat) => if i < |log| then |log[i].a.segments| else 0
  }

  function ByteCount(log: seq<Entry>): nat -> int {
    (i: nat) => if i < |log| then SegmentBytes(log[i].a.segments) else 0
  }

  /** The statistics are those of the logged requests. */
  ghost predicate Tally(r: PlanResult, log: seq<Entry>) {
    && r.requests == |log| && r.leases == |Flatten(Segments(log))|
    && r.bytes == SegmentBytes(Flatten(Segments(log)))
    && r.truncated == |Truncated(log)|
    && r.singleLease == |SingleLease(log)| && r.multiLease == |log| - |SingleLease(log)|
    && IsLargest(LeaseCount(log), |log|, r.maxLeases)
    && IsLargest(ByteCount(log), |log|, r.maxBytes) && IsSmallest(ByteCount(log), |log|, r.minBytes)
    && (forall i :: 0 <= i < |log| ==> SegmentBytes(log[i].a.segments) > 0)
  }

  lemma EmptyLog(params: PlanParams)
    ensures LogOk(params, []) && Tally(NOTHING_PLANNED, [])
  {
    assert Segments([]) == [] && Truncated([]) == {} && SingleLease([]) == {};
  }
}

module PlanLogLaws {
  import opened Arith
  import opened PieceMaps
  import opened Leases
  import opened Planner
  import opened SchedulerModel
  import opened SchedulerTheorems
  import opened RequestLaws
  import opened Requests
  import opened PlanLog

  lemma SumsGrow(log: seq<Entry>, e: Entry)
    ensures Flatten(Segments(log + [e])) == Flatten(Segments(log)) + e.a.segments
    ensures SegmentBytes(Flatten(Segments(log + [e])))
         == SegmentBytes(Flatten(Segments(log))) + SegmentBytes(e.a.segments)
  {
    assert Segments(log + [e]) == Segments(log) + [e.a.segments];
    FlattenAppend(Segments(log), e.a.segments);
    SegmentBytesConcat(Flatten(Segments(log)), e.a.segments);
  }

  lemma TruncatedGrows(log: seq<Entry>, e: Entry)
    ensures |Truncated(log + [e])| == |Truncated(log)| + (if IsTruncated(e.a.reason) then 1 else 0)
  {
    hide IsTruncated;
    assert forall i: nat :: i < |log| ==> (i in Truncated(log + [e]) <==> i in Truncated(log));
    if IsTruncated(e.a.reason) {
      assert Truncated(log + [e]) == Truncated(log) + {|log|};
    } else {
      assert Truncated(log + [e]) == Truncated(log);
    }
  }

  lemma SingleLeaseGrows(log: seq<Entry>, e: Entry)
    ensures |SingleLease(log + [e])| == |SingleLease(log)| + (if |e.a.segments| == 1 then 1 else 0)
  {
    assert forall i: nat :: i < |log| ==> (i in SingleLease(log + [e]) <==> i in SingleLease(log));
    if |e.a.segments| == 1 {
      assert SingleLease(log + [e]) == SingleLease(log) + {|log|};
    } else {
      assert SingleLease(log + [e]) == SingleLease(log);
    }
  }

  lemma LargestGrows(f: nat -> int, f': nat -> int, n: nat, m: int)
    requires IsLargest(f, n, m) && f'(n) >= 0 && forall i: nat :: i < n ==> f'(i) == f(i)
    ensures IsLargest(f', n + 1, Max(m, f'(n)))
  {
    if n > 0 {
      var i: nat :| i < n && f(i) == m;
      assert f'(i) == m;
    }
  }

  lemma SmallestGrows(f: nat -> int, f': nat -> int, n: nat, m: int)
    requires IsSmallest(f, n, m) && f'(n) > 0 && forall i: nat :: i < n ==> f'(i) == f(i) && f(i) > 0
    ensures IsSmallest(f', n + 1, if m == 0 then f'(n) else Min(m, f'(n)))
  {
    if n > 0 {
      var i: nat :| i < n && f(i) == m;
      assert f'(i) == m;
    }
  }

  /** Counting one more request keeps the statistics those of the log. */
  lemma LogGrows(params: PlanParams, r: PlanResult, log: seq<Entry>, e: Entry)
    requires LogOk(params, log) && Tally(r, log) && EntryOk(params, e) && SegmentBytes(e.a.segments) > 0
    requires e.a.segments != []
    ensures LogOk(params, log + [e]) && Tally(Counted(r, e.a), log + [e])
  {
    hide EntryOk, IsLargest, IsSmallest, IsTruncated, Segments, Truncated, SingleLease, Flatten, SegmentBytes;
    SumsGrow(log, e);
    TruncatedGrows(log, e);
    SingleLeaseGrows(log, e);
    LargestGrows(LeaseCount(log), LeaseCount(log + [e]), |log|, r.maxLeases);
    LargestGrows(ByteCount(log), ByteCount(log + [e]), |log|, r.maxBytes);
    SmallestGrows(ByteCount(log), ByteCount(log + [e]), |log|, r.minBytes);
  }

  /** A dynamic request counts as truncated exactly when it ends before its share's target. */
  lemma DynamicTruncation(params: PlanParams, e: Entry)
    requires EntryOk(params, e) && params.mode == Dynamic
    ensures e.a.segments != []
    ensures IsTruncated(e.a.reason) <==> e.a.segments[|e.a.segments| - 1].end != e.a.targetEnd
  {
    hide OneRun, PlannedRequest, IsUntouched, EffectiveMinSplit;
    var s, m := e.before, EffectiveMinSplit(e.before.pm.g.pieceSize, params.minSplit);
    NonEmptyRun(s, e.after, e.a.segments);
    if exists p: nat :: IsUntouched(s, p) {
      var slots := Max(params.inFlightRequests - e.occupied, 0);
      var cands, counts, chosen :| PlannedRequest(s, slots, m, params.maxRequest, 0, e.a, cands, counts, chosen);
      MinSplitPositive(s.pm.g.pieceSize, params.minSplit);
      PlannedTruncation(s, slots, m, params.maxRequest, e.a, cands, counts, chosen);
    }
  }

  lemma PlannedTruncation(s: State, slots: nat, minSplit: nat, maxRequest: nat, a: RequestAssignment,
                          cands: seq<Candidate>, counts: seq<nat>, chosen: nat)
    requires PlannedRequest(s, slots, minSplit, maxRequest, 0, a, cands, counts, chosen) && minSplit > 0
    ensures a.segments != [] && (IsTruncated(a.reason) <==> a.segments[|a.segments| - 1].end != a.targetEnd)
  {
    hide PlanOk, RunsOf, WholeRun, EndPiece, RequestEnd, ShareEndPiece, Count, End;
    ChosenIsRun(s, cands, slots, minSplit, counts, chosen);
    ReasonNoneExact(s.pm.g, cands[chosen], counts[chosen], minSplit, maxRequest);
    RequestIsPlanned(s.pm.g, cands[chosen], ShareEndPiece(s.pm.g, cands[chosen], counts[chosen], minSplit), minSplit,
                     maxRequest);
  }

  lemma RequestIsPlanned(g: Geometry, c: Candidate, desired: nat, minSplit: nat, maxRequest: nat)
    requires EndPiece(g, c, desired, minSplit, maxRequest).0 > 0
    ensures RequestEnd(g, c, desired, minSplit, maxRequest).1.Planned?
  {
    hide EndPiece;
  }

  lemma NonEmptyRun(s: State, s': State, segs: seq<Segment>)
    requires OneRun(s, s', segs, 0)
    ensures segs != []
  {
  }

  lemma ChosenIsRun(s: State, cands: seq<Candidate>, slots: nat, minSplit: nat, counts: seq<nat>, chosen: nat)
    requires RunsOf(s, cands, 0, Count(s.pm.g)) && slots > 0
    requires forall i :: 0 <= i < |cands| ==> cands[i].firstPiece < cands[i].endPiece
    requires PlanOk(s.pm.g, cands, slots, minSplit, counts, chosen)
    ensures chosen < |cands| == |counts| && IsRun(s.pm.g, cands[chosen])
  {
    hide Count, IsRun, IsUntouched, InRuns;
    assert MaximalRun(s, cands[chosen]);
    RunIsUntouched(s, cands[chosen]);
  }
}
