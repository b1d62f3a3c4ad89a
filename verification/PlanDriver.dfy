/** `bench_scheduler_plan` of `src/lib.rs`: the closed loop that plans requests, keeps a
    bounded number of them in flight and completes the oldest first. */
module PlanDriver {
  import opened PieceMaps
  import opened Leases
  import opened SchedulerModel
  import opened SchedulerLaws
  import opened SchedulerTheorems
  import opened RequestLaws
  import opened DriverLaws
  import opened Counting
  import opened Requests
  import opened PlanLog
  import opened PlanLogLaws
  import opened Scheduler

  /** Between the start `a0` of the loop and now: the leases in flight are the loop's own,
      and planned plus missing bytes add up to what was missing at the start. */
  ghost predicate Underway(a0: Audit, a: Audit, queue: seq<seq<Segment>>, result: PlanResult) {
    && a.s.pm.g == a0.s.pm.g && a.s.stopped == a0.s.stopped
    && Owned(a0.s, a.s, Flatten(queue))
    && result.bytes + MissingBytes(a.s) == MissingBytes(a0.s)
    && Consistent(result)
  }

  /** One planned request joins the queue. */
  lemma RequestJoins(a0: Audit, a: Audit, a': Audit, queue: seq<seq<Segment>>, result: PlanResult, r: RequestAssignment)
    requires AuditOk(a) && Underway(a0, a, queue, result) && OneRun(a.s, a'.s, r.segments, 0)
    ensures Underway(a0, a', queue + [r.segments], Counted(result, r))
    ensures MissingBytes(a'.s) < MissingBytes(a.s) && SegmentBytes(r.segments) > 0
  {
    hide AuditOk, Missing, Owned, Consistent;
    AuditInv(a);
    SegmentsPositive(r.segments);
    GrantOwned(a0.s, a.s, a'.s, Flatten(queue), r.segments);
    FlattenAppend(queue, r.segments);
    CountedConsistent(result, r);
  }

  /** Fill the free slots; the planner stops early only when nothing is missing or the
      scheduler is stopped. */
  method FillSlots(sched: SchedulerState, params: PlanParams, queue0: seq<seq<Segment>>, result0: PlanResult,
                   ghost a0: Audit, ghost log0: seq<Entry>)
    returns (queue: seq<seq<Segment>>, result: PlanResult, ghost log: seq<Entry>)
    requires LogOk(params, log0) && Tally(result0, log0)
    requires sched.Valid() && Underway(a0, sched.Now(), queue0, result0)
    requires |queue0| <= params.inFlightRequests && RequestsFit(params, a0.s.pm.g, result0)
    modifies sched
    ensures sched.Valid() && Underway(a0, sched.Now(), queue, result)
    ensures LogOk(params, log) && Tally(result, log)
    ensures |queue| <= params.inFlightRequests && RequestsFit(params, a0.s.pm.g, result)
    ensures |queue| == params.inFlightRequests || sched.availableRangeCount == 0 || sched.stopped
    ensures MissingBytes(sched.S()) < old(MissingBytes(sched.S()))
         || (sched.Now() == old(sched.Now()) && queue == queue0 && result == result0)
    ensures params.inFlightRequests == 0 || old(sched.stopped) ==>
              sched.Now() == old(sched.Now()) && queue == queue0 && result == result0
  {
    hide AuditOk, Inv, OneRun, Owned, Consistent, MissingBytes, Run, LogOk, Tally, EntryOk, Counted,
         FixedRequest, FixedTarget, DynamicRequest;
    queue, result, log := queue0, result0, log0;
    while |queue| < params.inFlightRequests
      invariant sched.Valid() && Underway(a0, sched.Now(), queue, result)
      invariant LogOk(params, log) && Tally(result, log)
      invariant |queue| <= params.inFlightRequests && RequestsFit(params, a0.s.pm.g, result)
      invariant (&& MissingBytes(sched.S()) < old(MissingBytes(sched.S())) && params.inFlightRequests > 0
                 && !old(sched.stopped) && !sched.stopped)
             || (sched.Now() == old(sched.Now()) && queue == queue0 && result == result0)
    {
      ghost var before := sched.Now();
      var a, ops := sched.AssignRequest(0, params.inFlightRequests, params.minSegment, |queue|, params.mode,
                                        params.batchSize, params.minSplit, params.maxRequest, true, true);
      if a.None? {
        SameAudit(before, sched.Now());
        break;
      }
      RequestJoins(a0, before, sched.Now(), queue, result, a.value);
      RunSegments(before.s, sched.S(), a.value.segments, 0);
      ghost var entry := Entry(before.s, sched.S(), |queue|, a.value);
      EntryHolds(params, entry);
      CountedFits(params, a0.s.pm.g, result, a.value);
      LogGrows(params, result, log, entry);
      log := log + [entry];
      result := Counted(result, a.value);
      queue := queue + [a.value.segments];
    }
  }

  /** Acknowledged bytes are determined by the state. */
  lemma SameAudit(a: Audit, b: Audit)
    requires AuditOk(a) && AuditOk(b) && a.s == b.s
    ensures a == b
  {
  }

  lemma RunSegments(s: State, s': State, segs: seq<Segment>, worker: nat)
    requires OneRun(s, s', segs, worker)
    ensures segs != [] && s'.stopped == s.stopped && SegmentBytes(segs) == RequestBytes(segs)
  {
    hide Granted;
    GapFreeBytes(segs);
    GrantedFrame(s, s', segs);
  }

  /** Complete every lease of the oldest request; each must still be owned. */
  method CompleteOldest(sched: SchedulerState, oldest: seq<Segment>, ghost rest: seq<Segment>, ghost a0: Audit)
    requires sched.Valid() && Owned(a0.s, sched.S(), oldest + rest)
    modifies sched
    ensures sched.Valid() && Owned(a0.s, sched.S(), rest)
    ensures MissingBytes(sched.S()) == old(MissingBytes(sched.S()))
    ensures sched.stopped == old(sched.stopped) && sched.pieceMap.g == old(sched.pieceMap.g)
    ensures sched.availableRangeCount == old(sched.availableRangeCount)
  {
    hide AuditOk, Inv, Owned, MissingBytes, CompleteLease;
    assert oldest[0..] == oldest;
    for i := 0 to |oldest|
      invariant sched.Valid() && Owned(a0.s, sched.S(), oldest[i..] + rest)
      invariant MissingBytes(sched.S()) == old(MissingBytes(sched.S()))
      invariant sched.stopped == old(sched.stopped) && sched.pieceMap.g == old(sched.pieceMap.g)
      invariant sched.availableRangeCount == old(sched.availableRangeCount)
    {
      AuditInv(sched.Now());
      ghost var flight := oldest[i..] + rest;
      assert flight[0] == oldest[i] && flight[1..] == oldest[i + 1..] + rest;
      CompleteOwned(a0.s, sched.S(), flight);
      CompleteKeepsCounts(sched.S(), oldest[i].Key());
      CompleteEffect(sched.S(), oldest[i].Key());
      var ok := sched.Complete(oldest[i].Key());
      assert ok;
    }
    assert oldest[|oldest|..] + rest == rest;
  }

  /** The loop ends in both modes, its ownership assertion never fails, and with at least
      one slot it plans and acknowledges exactly the bytes that were missing. The result counts
      the requests of the log, each chosen as its mode prescribes. */
  method SchedulerPlan(sched: SchedulerState, params: PlanParams) returns (result: PlanResult, ghost log: seq<Entry>)
    requires sched.Valid()
    modifies sched
    ensures sched.Valid() && Consistent(result)
    ensures LogOk(params, log) && Tally(result, log)
    ensures params.inFlightRequests == 0 || old(sched.stopped) ==>
              result == NOTHING_PLANNED && sched.Now() == old(sched.Now())
    ensures RequestsFit(params, old(sched.pieceMap.g), result)
    ensures params.inFlightRequests > 0 && !old(sched.stopped) ==>
              && result.bytes == |MissingBelow(old(sched.S()), old(sched.pieceMap.g.totalSize))|
              && MissingBytes(sched.S()) == 0
              && (forall x: nat :: !Missing(sched.S(), x))
              && (forall x: nat :: x in sched.acked <==> x in old(sched.acked) || Missing(old(sched.S()), x))
              && Owned(old(sched.S()), sched.S(), [])
    ensures params.inFlightRequests > 0 && !old(sched.stopped) && (forall key :: !Active(old(sched.S()), key)) ==>
              AllDone(sched.pieceMap)
  {
    hide AuditOk, Inv, Owned, Consistent, MissingBytes, MissingBelow, Missing, Count, AllDone, Active, LogOk, Tally;
    ghost var a0 := sched.Now();
    result, log := NOTHING_PLANNED, [];
    EmptyLog(params);
    var queue: seq<seq<Segment>> := [];
    StartUnderway(a0);
    AuditInv(a0);
    MissingBytesExact(a0.s);
    while true
      invariant sched.Valid() && Underway(a0, sched.Now(), queue, result)
      invariant LogOk(params, log) && Tally(result, log)
      invariant |queue| <= params.inFlightRequests && RequestsFit(params, a0.s.pm.g, result)
      invariant params.inFlightRequests == 0 || a0.s.stopped ==>
                  sched.Now() == a0 && queue == [] && result == NOTHING_PLANNED
      decreases MissingBytes(sched.S()), |queue|
    {
      AuditInv(sched.Now());
      RangeCountZero(sched.S());
      queue, result, log := FillSlots(sched, params, queue, result, a0, log);
      AuditInv(sched.Now());
      RangeCountZero(sched.S());
      if queue == [] {
        if params.inFlightRequests > 0 && !a0.s.stopped {
          AckedAreMissing(a0, sched.Now());
          if forall key :: !Active(a0.s, key) {
            NoLeases(a0.s, sched.S());
            NothingLeft(sched.S());
          }
        }
        return;
      }
      var oldest := queue[0];
      queue := queue[1..];
      CompleteOldest(sched, oldest, Flatten(queue), a0);
    }
  }

  lemma StartUnderway(a: Audit)
    ensures Underway(a, a, [], NOTHING_PLANNED)
  {
    OwnedNothing(a.s);
  }

  lemma NoLeases(s0: State, s: State)
    requires Owned(s0, s, []) && forall key :: !Active(s0, key)
    ensures forall key :: !Active(s, key)
  {
  }

  lemma NoneBelow(s: State, hi: nat)
    requires forall x: nat :: !Missing(s, x)
    ensures MissingBelow(s, hi) == {}
  {
    hide Missing;
  }

  /** A second run finds nothing left to plan. */
  method PlanTwice(sched: SchedulerState, params: PlanParams) returns (first: PlanResult, second: PlanResult)
    requires sched.Valid()
    modifies sched
    ensures sched.Valid() && second == NOTHING_PLANNED
  {
    hide AuditOk, Inv, Owned, MissingBytes, MissingBelow, Missing, Count, AllDone, Active, LogOk, Tally;
    ghost var log;
    first, log := SchedulerPlan(sched, params);
    if params.inFlightRequests > 0 && !old(sched.stopped) {
      NoneBelow(sched.S(), sched.pieceMap.g.totalSize);
    }
    second, log := SchedulerPlan(sched, params);
  }
}
