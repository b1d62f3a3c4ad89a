/** Settling the forwarded prefix of an interrupted attempt (`src/session/multi.rs`). */
module Settlement {
  import opened Ranges
  import opened PieceMaps
  import opened Leases
  import opened SchedulerModel
  import opened SchedulerLaws
  import opened Scheduler
  import opened SessionLaws

  datatype Settled = Settled | FlushFailed | StaleHandoff | DiscardFailed

  function LeaseStart(s: State, key: LeaseKey): nat {
    if Active(s, key) then RangeOf(s, key).start else 0
  }

  lemma PrefixSize(a: Audit, key: LeaseKey, end: nat)
    requires AuditOk(a) && Retainable(a.s, key, end)
    ensures AckedBy(a.s, Op.Retain(key, end)) == BytesOf(ByteRange(LeaseStart(a.s, key), end))
    ensures |a.acked + AckedBy(a.s, Op.Retain(key, end))| == |a.acked| + end - LeaseStart(a.s, key)
  {
    hide AuditOk;
    AckedGrows(a, key, end);
    assert RangeOf(a.s, key).(end := end) == ByteRange(RangeOf(a.s, key).start, end);
  }

  /** Settling an attempt keeps or takes back its forwarded bytes. The prefix is kept exactly
      when its flush was acknowledged and it ends strictly inside the lease; every other
      outcome takes the bytes back and leaves the segment and the scheduler as they were. So
      `received - acknowledged` drops by exactly the forwarded bytes in every outcome, unless a
      kept segment does not start where its lease does. */
  method SettlePrefix(scheduler: SchedulerState, segment: Segment, received: nat, forwarded: nat, retain: bool,
                      flushAcked: bool, discardAcked: bool)
    returns (segment': Segment, received': nat, result: Settled)
    requires scheduler.Valid() && forwarded <= received
    modifies scheduler
    ensures scheduler.Valid() && scheduler.S().pm == old(scheduler.S().pm)
    ensures var kept := retain && result.Settled?;
            && (kept <==> retain && flushAcked
                          && Retainable(old(scheduler.S()), segment.Key(), segment.start + forwarded))
            && (received' - |scheduler.acked| == received - |old(scheduler.acked)| - forwarded
                <==> !kept || LeaseStart(old(scheduler.S()), segment.Key()) == segment.start)
    ensures retain && result.Settled? ==>
              && segment' == segment.(start := segment.start + forwarded)
              && (scheduler.S(), true) == RetainPrefix(old(scheduler.S()), segment.Key(), segment'.start)
              && scheduler.acked == old(scheduler.acked)
                   + BytesOf(ByteRange(LeaseStart(old(scheduler.S()), segment.Key()), segment'.start))
    ensures !(retain && result.Settled?) ==>
              && segment' == segment && scheduler.S() == old(scheduler.S()) && scheduler.acked == old(scheduler.acked)
    ensures result.FlushFailed? <==> retain && !flushAcked
    ensures result.DiscardFailed? <==> !retain && !discardAcked
  {
    hide AuditOk, Inv, Unacked;
    if retain {
      if !flushAcked {
        return segment, received - forwarded, FlushFailed;
      }
      var end := segment.start + forwarded;
      ghost var before := scheduler.Now();
      var ok := scheduler.RetainPrefix(segment.Key(), end);
      if !ok {
        return segment, received - forwarded, StaleHandoff;
      }
      PrefixSize(before, segment.Key(), end);
      return segment.(start := end), received, Settled;
    } else {
      return segment, received - forwarded, if discardAcked then Settled else DiscardFailed;
    }
  }
}
