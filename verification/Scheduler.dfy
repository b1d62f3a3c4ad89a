/** `SchedulerState` of `src/scheduler.rs`, updated in place. Its ghost field `acked`
    collects the bytes acknowledged so far; `Valid` says the books balance. */
module Scheduler {
  import opened Arith
  import opened Ranges
  import opened RangeLaws
  import opened PieceMaps
  import opened Leases
  import opened Planner
  import opened SlotPlanner
  import opened SchedulerModel
  import opened SchedulerLaws
  import opened SchedulerTheorems
  import opened RequestLaws
  import opened LeaseChanges
  import opened Requests

  /** First set bit in `[lo, hi)`. */
  function FirstOne(bits: seq<bool>, lo: nat, hi: nat): (r: Option<nat>)
    requires lo <= hi <= |bits|
    ensures r.None? ==> forall i :: lo <= i < hi ==> !bits[i]
    ensures r.Some? ==> lo <= r.value < hi && bits[r.value] && forall i :: lo <= i < r.value ==> !bits[i]
    decreases hi - lo
  {
    if lo == hi then None else if bits[lo] then Some(lo) else FirstOne(bits, lo + 1, hi)
  }

  /** First clear bit at or after `lo`, or the length. */
  function FirstZero(bits: seq<bool>, lo: nat): (r: nat)
    requires lo <= |bits|
    ensures lo <= r <= |bits| && (forall i :: lo <= i < r ==> bits[i]) && (r < |bits| ==> !bits[r])
    decreases |bits| - lo
  {
    if lo == |bits| || !bits[lo] then lo else FirstZero(bits, lo + 1)
  }

  /** The keys of an ordered map inside `[lo, hi)`, ascending. */
  method KeysInRange<V>(m: map<nat, V>, lo: nat, hi: nat) returns (keys: seq<nat>)
    requires lo <= hi
    ensures forall k: nat :: k in keys <==> k in m && lo <= k < hi
    ensures forall i, j :: 0 <= i < j < |keys| ==> keys[i] < keys[j]
  {
    keys := [];
    for k := lo to hi
      invariant forall q: nat :: q in keys <==> q in m && lo <= q < k
      invariant forall i :: 0 <= i < |keys| ==> keys[i] < k
      invariant forall i, j :: 0 <= i < j < |keys| ==> keys[i] < keys[j]
    {
      if k in m {
        keys := keys + [k];
      }
    }
  }

  class SchedulerState {
    var pieceMap: PieceMap
    var pieces: map<nat, PieceState>
    var availablePieces: seq<bool>
    var activeLeaseCount: nat
    var availableRangeCount: nat
    var nextCandidate: nat
    var nextLeaseId: nat
    var snapshotSeq: nat
    var stopped: bool
    ghost var acked: set<nat>

    /** The fields as one value. */
    ghost function S(): State
      reads this
    {
      State(pieceMap, pieces, availablePieces, activeLeaseCount, availableRangeCount,
            nextCandidate, nextLeaseId, snapshotSeq, stopped)
    }

    ghost function Now(): Audit
      reads this
    {
      Audit(S(), acked)
    }

    ghost predicate Valid()
      reads this
    {
      AuditOk(Now())
    }

    constructor (pm: PieceMap)
      requires PieceMaps.Valid(pm)
      ensures Valid() && Now() == Start0(pm)
    {
      InitAudit(pm);
      AllDoneExact(pm);
      pieceMap := pm;
      pieces := map[];
      availablePieces := seq(|pm.completed|, i requires 0 <= i < |pm.completed| => !pm.completed[i]);
      activeLeaseCount := 0;
      availableRangeCount := Count(pm.g) - pm.completedPieces;
      nextCandidate := if pm.nextCandidate < Count(pm.g) then pm.nextCandidate else 0;
      nextLeaseId := 1;
      snapshotSeq := 0;
      stopped := false;
      acked := RestoredBytes(pm);
    }

    // ----- elementary operations

    method IssueLease(p: nat, range: ByteRange, worker: nat) returns (segment: Option<Segment>)
      requires Valid() && Issuable(S(), p, range)
      modifies this
      ensures Valid() && acked == old(acked)
      ensures p < |old(availablePieces)|
      ensures (S(), segment) == SchedulerModel.IssueLease(old(S()), p, range, worker)
    {
      hide AuditOk, Inv, Count, Start, End, Remove, PieceOk, LeaseCounts, SchedulerModel.IssueLease;
      ghost var before := S();
      AuditInv(Now());
      IssueKeepsAudit(Now(), p, range, worker);
      PieceAtOk(S(), p);
      CountersCover(S(), p);
      if stopped {
        StoppedIssue(before, p, range, worker);
        return None;
      }
      var piece := if p in pieces then pieces[p] else NewPiece(ByteRange(Start(pieceMap.g, p), End(pieceMap.g, p)));
      pieces := pieces[p := piece];
      var previousRanges := |piece.missing|;
      var missing, ok := RemoveInPlace(piece.missing, range);
      IssueShape(before, p, range, worker, piece, Remove(piece.missing, range));
      if !ok {
        assert S() == SchedulerModel.IssueLease(before, p, range, worker).0;
        return None;
      }
      var leaseId := nextLeaseId;
      nextLeaseId := nextLeaseId + 1;
      var attempt := piece.attempts + 1;
      piece := PieceState(missing, piece.hasCompleted, piece.leases[leaseId := range], attempt);
      pieces := pieces[p := piece];
      availableRangeCount := availableRangeCount - previousRanges + |piece.missing|;
      activeLeaseCount := activeLeaseCount + 1;
      availablePieces := availablePieces[p := |piece.missing| != 0];
      segment := Some(Segment(p, leaseId, range.start, range.end, worker, attempt));
      assert pieces == before.pieces[p := piece];
      assert S() == SchedulerModel.IssueLease(before, p, range, worker).0;
    }

    /** Replace an active lease, and only such a one, with a fresh identity for the same range. */
    method Renew(key: LeaseKey, worker: nat) returns (segment: Option<Segment>)
      requires Valid()
      modifies this
      ensures Valid() && acked == old(acked)
      ensures (S(), segment) == RenewLease(old(S()), key, worker)
      ensures segment.Some? <==> Active(old(S()), key)
      ensures segment.Some? ==> Renewed(old(S()), S(), key, worker, segment.value)
      ensures segment.None? ==> S() == old(S())
    {
      hide Inv, Unacked, Renewed;
      RenewExact(S(), key, worker);
      if IsComplete(pieceMap, key.piece) || key.piece !in pieces || key.lease !in pieces[key.piece].leases {
        return None;
      }
      RenewKeepsAudit(Now(), key, worker);
      var piece := pieces[key.piece];
      var previous := piece.leases[key.lease];
      var leaseId := nextLeaseId;
      nextLeaseId := nextLeaseId + 1;
      var attempt := piece.attempts + 1;
      pieces := pieces[key.piece :=
        piece.(leases := (piece.leases - {key.lease})[leaseId := previous], attempts := attempt)];
      segment := Some(Segment(key.piece, leaseId, previous.start, previous.end, worker, attempt));
    }

    /** Keep a confirmed prefix of a lease; the same identity stays active for the rest. */
    method RetainPrefix(key: LeaseKey, confirmedEnd: nat) returns (ok: bool)
      requires Valid()
      modifies this
      ensures Valid() && Now() == Next(old(Now()), Op.Retain(key, confirmedEnd))
      ensures (S(), ok) == SchedulerModel.RetainPrefix(old(S()), key, confirmedEnd)
      ensures ok <==> Retainable(old(S()), key, confirmedEnd)
    {
      hide Inv, Unacked;
      assert acked + {} == acked;
      if key.piece !in pieces || key.lease !in pieces[key.piece].leases {
        return false;
      }
      var piece := pieces[key.piece];
      var active := piece.leases[key.lease];
      if confirmedEnd <= active.start || confirmedEnd >= active.end {
        return false;
      }
      RetainKeepsAudit(Now(), key, confirmedEnd);
      acked := acked + AckedBy(S(), Op.Retain(key, confirmedEnd));
      pieces := pieces[key.piece :=
        piece.(leases := piece.leases[key.lease := active.(start := confirmedEnd)], hasCompleted := true)];
      ok := true;
    }

    /** Acknowledge a lease; the last one of a piece sets the piece's durable bit. */
    method Complete(key: LeaseKey) returns (ok: bool)
      requires Valid()
      modifies this
      ensures Valid() && Now() == Next(old(Now()), Op.Complete(key))
      ensures (S(), ok) == CompleteLease(old(S()), key)
      ensures ok <==> Active(old(S()), key)
    {
      hide AuditOk, Inv, Count, Start, End, PieceOk, LeaseCounts;
      ghost var before := S();
      AuditInv(Now());
      assert acked + {} == acked;
      if key.piece !in pieces || key.lease !in pieces[key.piece].leases {
        return false;
      }
      CompleteKeepsAudit(Now(), key);
      ActiveBounds(S(), key);
      PieceAtOk(S(), key.piece);
      CountersCover(S(), key.piece);
      acked := acked + AckedBy(S(), Op.Complete(key));
      var piece := pieces[key.piece];
      assert piece.leases.Keys != {};
      piece := piece.(leases := piece.leases - {key.lease}, hasCompleted := true);
      var pieceComplete := piece.missing == [] && piece.leases == map[];
      activeLeaseCount := activeLeaseCount - 1;
      if pieceComplete {
        pieceMap := MarkComplete(pieceMap, key.piece);
        pieces := pieces - {key.piece};
      } else {
        pieces := pieces[key.piece := piece];
      }
      ok := true;
      assert S() == CompleteLease(before, key).0;
    }

    /** Give a failed lease back; its bytes become missing again. */
    method Reclaim(key: LeaseKey) returns (ok: bool)
      requires Valid()
      modifies this
      ensures Valid() && acked == old(acked)
      ensures Active(old(S()), key) ==> key.piece < |old(availablePieces)|
      ensures (S(), ok) == ReclaimLease(old(S()), key)
      ensures ok <==> Active(old(S()), key)
      ensures ok ==> Reclaimed(old(S()), S(), key)
      ensures !ok ==> S() == old(S())
    {
      hide AuditOk, Inv, Count, Start, End, PieceOk, LeaseCounts, Insert, Reclaimed, PieceRange;
      ghost var before := S();
      AuditInv(Now());
      AuditAvailable(Now(), key);
      ReclaimExact(before, key);
      if key.piece !in pieces || key.lease !in pieces[key.piece].leases {
        return false;
      }
      ReclaimKeepsAudit(Now(), key);
      ActiveBounds(S(), key);
      PieceAtOk(S(), key.piece);
      CountersCover(S(), key.piece);
      var piece := pieces[key.piece];
      var previousRanges := |piece.missing|;
      var lease := piece.leases[key.lease];
      assert piece.leases.Keys != {};
      var missing := InsertInPlace(piece.missing, lease);
      piece := piece.(missing := missing, leases := piece.leases - {key.lease});
      pieces := pieces[key.piece := piece];
      activeLeaseCount := activeLeaseCount - 1;
      availableRangeCount := availableRangeCount - previousRanges + |piece.missing|;
      availablePieces := availablePieces[key.piece := true];
      if key.piece < nextCandidate {
        nextCandidate := key.piece;
      }
      ok := true;
      assert S() == ReclaimLease(before, key).0;
    }

    /** Refuse all further leases, then give this one back. */
    method StopAndReclaim(key: LeaseKey)
      requires Valid()
      modifies this
      ensures Valid() && acked == old(acked) && stopped
      ensures Active(old(S()), key) ==> key.piece < |old(availablePieces)|
      ensures S() == ReclaimLease(old(S()).(stopped := true), key).0
      ensures Active(old(S()), key) ==> Reclaimed(old(S()).(stopped := true), S(), key)
      ensures !Active(old(S()), key) ==> S() == old(S()).(stopped := true)
    {
      hide Inv, Unacked, Reclaimed;
      StepKeepsAudit(Now(), Op.Stop);
      assert acked + {} == acked;
      assert Next(Now(), Op.Stop) == Audit(S().(stopped := true), acked);
      stopped := true;
      var _ := Reclaim(key);
    }

    // ----- assignment of single ranges

    method NextAvailable() returns (p: nat)
      requires Valid() && availableRangeCount > 0
      ensures IsNextAvailable(availablePieces, nextCandidate, p)
    {
      hide AuditOk, Inv, Count;
      AuditInv(Now());
      CursorInRange(S());
      RangeCountZero(S());
      var found := FirstOne(availablePieces, nextCandidate, |availablePieces|);
      if found.None? {
        found := FirstOne(availablePieces, 0, nextCandidate);
      }
      p := found.value;
    }

    /** A prefix of the first missing range of the next available piece; refused exactly
        when the scheduler is stopped or nothing is missing. */
    method AssignToWithSplit(worker: nat, maxActive: nat, minSegment: nat)
      returns (segment: Option<Segment>, ghost ops: seq<Op>)
      requires Valid()
      modifies this
      ensures Valid() && Now() == Run(old(Now()), ops)
      ensures segment.None? <==> old(stopped) || old(availableRangeCount) == 0
      ensures segment.None? ==> S() == old(S())
      ensures segment.Some? ==>
                && PrefixLeased(old(S()), S(), segment.value) && segment.value.owner == worker
                && IsNextAvailable(old(availablePieces), old(nextCandidate), segment.value.piece)
                && SplitOf(old(S()), segment.value.piece, maxActive, minSegment, segment.value.Range())
                && segment.value.end - segment.value.start <= pieceMap.g.pieceSize
      ensures pieceMap == old(pieceMap) && stopped == old(stopped)
    {
      hide AuditOk, Inv, Count, Start, End, PieceOk, AssignmentRange, SplitOf, PrefixLeased, Issuable,
           SchedulerModel.IssueLease;
      ops := [];
      ghost var before := Now();
      AuditInv(before);
      if availableRangeCount == 0 {
        return None, [];
      }
      var p := NextAvailable();
      AvailableNeedsRange(S(), p);
      var first := if p in pieces then pieces[p].missing[0] else PieceRange(pieceMap.g, p);
      var range := AssignmentRange(first, activeLeaseCount + availableRangeCount, maxActive, minSegment);
      SplitChosen(S(), p, maxActive, minSegment);
      ghost var s', seg' := PrefixIssued(S(), p, range, worker);
      ShortLease(S(), p, range);
      segment := IssueLease(p, range, worker);
      if segment.None? {
        return None, [];
      }
      ops := [Op.Issue(p, range, worker), Op.Seek((p + 1) % Count(pieceMap.g))];
      nextCandidate := (p + 1) % Count(pieceMap.g);
      TwoSteps(before, ops[0], ops[1]);
    }

    /** The next available range as a whole. */
    method AssignTo(worker: nat) returns (segment: Option<Segment>, ghost ops: seq<Op>)
      requires Valid()
      modifies this
      ensures Valid() && Now() == Run(old(Now()), ops)
      ensures segment.None? <==> old(stopped) || old(availableRangeCount) == 0
      ensures segment.None? ==> S() == old(S())
      ensures segment.Some? ==>
                && Granted(old(S()), S(), [segment.value]) && segment.value.owner == worker
                && IsNextAvailable(old(availablePieces), old(nextCandidate), segment.value.piece)
                && PieceAt(old(S()), segment.value.piece).missing != []
                && segment.value.Range() == PieceAt(old(S()), segment.value.piece).missing[0]
                && segment.value.end - segment.value.start <= pieceMap.g.pieceSize
                && segment.value.attempt == PieceAt(old(S()), segment.value.piece).attempts + 1
                && CursorBehind(S(), segment.value.piece)
    {
      segment, ops := AssignToWithSplit(worker, 1, U64_MAX);
    }

    /** An explicit part of an incomplete piece; refused exactly when the part is not inside
        such a piece, the scheduler is stopped, or some byte of it is not missing. */
    method AssignSubrange(p: nat, start: nat, end: nat, worker: nat) returns (segment: Option<Segment>)
      requires Valid()
      modifies this
      ensures Valid() && Now() == Next(old(Now()), Op.Issue(p, ByteRange(start, end), worker))
      ensures segment.Some? <==>
              && Issuable(old(S()), p, ByteRange(start, end)) && !old(stopped)
              && forall x: nat :: start <= x < end ==> Missing(old(S()), x)
      ensures segment.Some? ==>
                && Granted(old(S()), S(), [segment.value]) && segment.value.piece == p
                && segment.value.Range() == ByteRange(start, end) && segment.value.owner == worker
                && segment.value.attempt == PieceAt(old(S()), p).attempts + 1
      ensures segment.None? ==> SameWork(old(S()), S())
    {
      hide AuditOk, Inv, Granted, Count, Start, End, Missing;
      AuditInv(Now());
      SameWorkRefl(S());
      assert acked + {} == acked;
      if p >= Count(pieceMap.g) || IsComplete(pieceMap, p) || start >= end
         || start < Start(pieceMap.g, p) || end > End(pieceMap.g, p) {
        return None;
      }
      ghost var s', seg' := IssueEffect(S(), p, ByteRange(start, end), worker);
      assert forall x: nat :: Covers(ByteRange(start, end), x) <==> start <= x < end;
      segment := IssueLease(p, ByteRange(start, end), worker);
    }

    /** Lease one untouched piece as a whole. */
    method IssueWhole(p: nat, worker: nat) returns (segment: Option<Segment>, ghost ops: seq<Op>)
      requires Valid() && IsUntouched(S(), p)
      modifies this
      ensures Valid() && acked == old(acked) && Now() == Run(old(Now()), ops)
      ensures segment.Some? <==> !old(stopped)
      ensures segment.None? ==> S() == old(S())
      ensures segment.Some? ==>
                && Granted(old(S()), S(), [segment.value]) && availableRangeCount == old(availableRangeCount) - 1
                && segment.value.piece == p && segment.value.Range() == PieceRange(pieceMap.g, p)
                && segment.value.owner == worker && segment.value.attempt == 1
                && pieceMap == old(pieceMap) && stopped == old(stopped) && nextCandidate == old(nextCandidate)
                && (forall q: nat :: q != p ==> (IsUntouched(S(), q) <==> IsUntouched(old(S()), q)))
    {
      hide AuditOk, Inv, Granted, Count, Start, End, IsUntouched;
      ghost var before := Now();
      AuditInv(before);
      ghost var s', seg' := IssueWholePiece(S(), p, worker);
      UntouchedIsMissing(S(), p);
      segment := IssueLease(p, PieceRange(pieceMap.g, p), worker);
      ops := [];
      if segment.Some? {
        ops := [Op.Issue(p, PieceRange(before.s.pm.g, p), worker)];
        assert acked + {} == acked;
        RunSnoc(before, [], ops[0]);
        assert [] + ops == ops;
        GrantedFrame(before.s, S(), [segment.value]);
      }
    }

    /** Lease one untouched piece as a whole and move the search cursor behind it. */
    method IssueAndAdvance(p: nat, worker: nat) returns (segment: Option<Segment>, ghost ops: seq<Op>)
      requires Valid() && IsUntouched(S(), p)
      modifies this
      ensures Valid() && acked == old(acked) && Now() == Run(old(Now()), ops)
      ensures segment.Some? <==> !old(stopped)
      ensures segment.None? ==> S() == old(S())
      ensures segment.Some? ==>
                && Granted(old(S()), S(), [segment.value]) && availableRangeCount == old(availableRangeCount) - 1
                && segment.value.piece == p && segment.value.Range() == PieceRange(pieceMap.g, p)
                && segment.value.owner == worker && segment.value.attempt == 1
                && pieceMap == old(pieceMap) && stopped == old(stopped) && CursorBehind(S(), p)
    {
      hide AuditOk, Inv, Granted, Count, Start, End, CursorBehind;
      segment, ops := IssueWhole(p, worker);
      if segment.None? {
        return;
      }
      ghost var mid := S();
      AdvanceCursor(mid, p);
      nextCandidate := (p + 1) % Count(pieceMap.g);
      RunSnoc(old(Now()), ops, Op.Seek(nextCandidate));
      StepKeepsAudit(Audit(mid, acked), Op.Seek(nextCandidate));
      assert acked + {} == acked;
      assert S() == mid.(cursor := nextCandidate);
      ops := ops + [Op.Seek(nextCandidate)];
      SeekKeepsGrant(old(S()), mid, nextCandidate, [segment.value]);
    }

    // ----- fixed batches

    /** The checks before one more piece joins a batch of `1 + n` pieces. */
    method BatchCheck(first: Segment, n: nat, requestEnd: nat, worker: nat, byteCap: nat, reserved: nat)
      returns (stop: Option<Reason>)
      requires Valid() && n < MAX_REQUEST_LEASES && first.piece + 1 + n < Count(pieceMap.g)
      requires requestEnd == Start(pieceMap.g, first.piece + 1 + n)
      ensures stop.Some? ==> BatchStops(S(), first, n, worker, byteCap, reserved, stop.value)
      ensures stop.None? ==>
                && n + 1 < MAX_REQUEST_LEASES && availableRangeCount > reserved
                && IsUntouched(S(), first.piece + 1 + n)
                && End(pieceMap.g, first.piece + 1 + n) - first.start <= byteCap
    {
      hide AuditOk, Inv, Count, Start, End, IsUntouched;
      var p := first.piece + 1 + n;
      AuditInv(Now());
      UntouchedIffAvailable(S(), p);
      if n + 1 >= MAX_REQUEST_LEASES {
        return Some(LeaseLimit);
      }
      if availableRangeCount <= reserved {
        return Some(SlotsReserved);
      }
      if !availablePieces[p] || p in pieces {
        return Some(CandidateBoundary);
      }
      var range := PieceRange(pieceMap.g, p);
      if range.start != requestEnd || range.end - first.start > byteCap {
        return Some(MaxRequestBytes);
      }
      return None;
    }

    /** Reserve contiguous untouched pieces after `first`, as many as the byte cap, the lease
        limit and the `maxConnections - occupied - 1` ranges left to the other workers allow. */
    method ExtendBatch(first: Segment, worker: nat, maxConnections: nat, occupied: nat, byteCap: nat)
      returns (additional: seq<Segment>, reason: Reason, ghost ops: seq<Op>)
      requires Valid()
      modifies this
      ensures Valid() && Now() == Run(old(Now()), ops)
      ensures Granted(old(S()), S(), additional)
      ensures Batch(pieceMap.g, first, additional, worker, byteCap)
      ensures BatchStops(S(), first, |additional|, worker, byteCap, Max(maxConnections - occupied - 1, 0), reason)
      ensures availableRangeCount >= Min(old(availableRangeCount), maxConnections - occupied - 1)
      ensures pieceMap == old(pieceMap)
      ensures if additional == [] then S() == old(S()) else CursorBehind(S(), first.piece + |additional|)
    {
      hide AuditOk, Inv, Granted, Count, Start, End, IsUntouched, Batch, CursorBehind;
      SameWorkRefl(S());
      SameWorkGrantsNothing(S(), S());
      BatchEmpty(pieceMap.g, first, worker, byteCap);
      if first.piece !in pieces || first.lease !in pieces[first.piece].leases {
        return [], FirstLeaseNotFound, [];
      }
      var whole := PieceRange(pieceMap.g, first.piece);
      if first.owner != worker || first.Range() != whole || pieces[first.piece].leases[first.lease] != whole {
        return [], FirstLeaseNotWhole, [];
      }
      if byteCap == 0 {
        return [], BatchDisabled, [];
      }
      additional, reason, ops := ExtendRun(first, worker, byteCap, Max(maxConnections - (occupied + 1), 0));
    }

    /** The loop of `extend_batch_with_occupied`. */
    method ExtendRun(first: Segment, worker: nat, byteCap: nat, reserved: nat)
      returns (additional: seq<Segment>, reason: Reason, ghost ops: seq<Op>)
      requires Valid() && first.Range() == PieceRange(pieceMap.g, first.piece)
      modifies this
      ensures Valid() && Now() == Run(old(Now()), ops) && pieceMap == old(pieceMap)
      ensures Granted(old(S()), S(), additional) && Batch(pieceMap.g, first, additional, worker, byteCap)
      ensures BatchStops(S(), first, |additional|, worker, byteCap, reserved, reason)
      ensures availableRangeCount >= Min(old(availableRangeCount), reserved)
      ensures if additional == [] then S() == old(S()) else CursorBehind(S(), first.piece + |additional|)
    {
      hide AuditOk, Inv, Granted, Count, Start, End, IsUntouched, Batch, BatchStops, CursorBehind;
      additional, ops := [], [];
      SameWorkRefl(S());
      SameWorkGrantsNothing(S(), S());
      BatchEmpty(pieceMap.g, first, worker, byteCap);
      var requestEnd := first.end;
      var p := first.piece + 1;
      while p < Count(pieceMap.g)
        invariant Valid() && Now() == Run(old(Now()), ops) && pieceMap == old(pieceMap)
        invariant Granted(old(S()), S(), additional)
        invariant Batch(pieceMap.g, first, additional, worker, byteCap)
        invariant p == first.piece + 1 + |additional| && requestEnd == LastEnd(first, additional)
        invariant availableRangeCount >= Min(old(availableRangeCount), reserved)
        invariant if additional == [] then S() == old(S()) else CursorBehind(S(), first.piece + |additional|)
        decreases Count(pieceMap.g) - p
      {
        BatchReaches(pieceMap.g, first, additional, worker, byteCap);
        var stop := BatchCheck(first, |additional|, requestEnd, worker, byteCap, reserved);
        if stop.Some? {
          return additional, stop.value, ops;
        }
        ghost var mid := S();
        var segment, ops1 := IssueAndAdvance(p, worker);
        if segment.None? {
          StopsWhenStopped(S(), first, |additional|, worker, byteCap, reserved);
          return additional, LeaseIssueFailed, ops;
        }
        RunConcat(old(Now()), ops, ops1);
        ops := ops + ops1;
        GrantedCompose(old(S()), mid, S(), additional, [segment.value]);
        BatchAppend(pieceMap.g, first, additional, worker, byteCap, segment.value);
        additional := additional + [segment.value];
        requestEnd := segment.value.end;
        p := p + 1;
      }
      StopsAtTheEnd(S(), first, |additional|, worker, byteCap, reserved);
      reason := CandidateExhausted;
    }

    // ----- recovery batches

    /** The validation loop of a recovery batch. */
    method CheckRecovery(plan: seq<Part>) returns (ok: bool)
      ensures ok <==> RecoveryPlan(S(), plan)
    {
      hide Start, End, Count, IsComplete;
      if plan == [] || |plan| > MAX_REQUEST_LEASES {
        return false;
      }
      for i := 0 to |plan|
        invariant PlanPrefix(S(), plan, i)
      {
        var part := plan[i];
        if part.piece >= Count(pieceMap.g)
           || part.start >= part.end
           || part.start < Start(pieceMap.g, part.piece)
           || part.end > End(pieceMap.g, part.piece)
           || IsComplete(pieceMap, part.piece)
           || (i > 0 && (part.piece != plan[i - 1].piece + 1 || part.start != plan[i - 1].end)) {
          assert !(Issuable(S(), plan[i].piece, plan[i].Range())
                   && (0 < i ==> plan[i].piece == plan[i - 1].piece + 1 && plan[i].start == plan[i - 1].end));
          return false;
        }
      }
      ok := true;
    }

    /** Issue the parts in order until one is refused. */
    method IssueAll(plan: seq<Part>, worker: nat)
      returns (segments: seq<Segment>, ghost ops: seq<Op>, ghost states: seq<State>)
      requires Valid() && RecoveryPlan(S(), plan)
      modifies this
      ensures Valid() && acked == old(acked) && Now() == Run(old(Now()), ops)
      ensures |states| == |segments| + 1 && states[0] == old(S()) && IssueChain(states, plan, segments, worker)
      ensures MatchesPlan(segments, plan) && NextAttempts(old(S()), segments, worker)
      ensures Granted(old(S()), states[|segments|], segments)
      ensures |segments| == |plan| ==> S() == states[|segments|]
      ensures |segments| < |plan| ==>
                && SameWork(states[|segments|], S())
                && (old(stopped) || exists x: nat :: Covers(plan[|segments|].Range(), x) && !Missing(old(S()), x))
    {
      hide AuditOk, Inv, Granted, Count, Start, End, Missing, Issuable, IssueChain;
      segments, ops, states := [], [], [S()];
      SameWorkRefl(S());
      SameWorkGrantsNothing(S(), S());
      EmptyChain(S(), plan, worker);
      for i := 0 to |plan|
        invariant |segments| == i && Valid() && acked == old(acked) && Now() == Run(old(Now()), ops)
        invariant IssueChain(states, plan, segments, worker) && |states| == i + 1
        invariant states[0] == old(S()) && states[i] == S()
        invariant MatchesPlan(segments, plan) && Granted(old(S()), S(), segments)
        invariant NextAttempts(old(S()), segments, worker) && AheadUnchanged(old(S()), S(), plan, i)
      {
        var part := plan[i];
        ghost var before := Now();
        AuditInv(before);
        GrantedFrame(old(S()), S(), segments);
        PlanPart(old(S()), plan, i);
        SamePieceMapIssuable(old(S()), S(), part.piece, part.Range());
        ghost var s', seg' := IssueEffect(S(), part.piece, part.Range(), worker);
        var segment := IssueLease(part.piece, part.Range(), worker);
        RunSnoc(old(Now()), ops, Op.Issue(part.piece, part.Range(), worker));
        assert acked + {} == acked;
        ops := ops + [Op.Issue(part.piece, part.Range(), worker)];
        if segment.None? {
          RefusedPart(old(S()), before.s, plan, segments, i);
          return;
        }
        AheadStays(old(S()), before.s, S(), plan, i);
        ChainAppend(states, plan, segments, worker, S(), segment.value);
        GrantedCompose(old(S()), before.s, S(), segments, [segment.value]);
        states := states + [S()];
        segments := segments + [segment.value];
      }
    }

    /** Give the issued leases back, last one first. */
    method Rollback(plan: seq<Part>, segments: seq<Segment>, worker: nat, ghost states: seq<State>)
      returns (ghost ops: seq<Op>)
      requires Valid() && IssueChain(states, plan, segments, worker) && SameWork(states[|segments|], S())
      modifies this
      ensures Valid() && acked == old(acked) && Now() == Run(old(Now()), ops)
      ensures SameWork(states[0], S())
    {
      hide AuditOk, Inv, Count, Start, End, SameWork;
      ops := [];
      var i := |segments|;
      while i > 0
        invariant 0 <= i <= |segments| && Valid() && acked == old(acked) && Now() == Run(old(Now()), ops)
        invariant SameWork(states[i], S())
      {
        i := i - 1;
        AuditInv(Now());
        RollbackStep(states[i], plan[i].piece, plan[i].Range(), worker, states[i + 1], segments[i], S());
        var _ := Reclaim(segments[i].Key());
        RunSnoc(old(Now()), ops, Op.Reclaim(segments[i].Key()));
        assert acked + {} == acked;
        ops := ops + [Op.Reclaim(segments[i].Key())];
      }
    }

    /** Issue a planned contiguous batch or nothing. It succeeds exactly when the plan is
        well-formed, the scheduler runs and every planned byte is missing; a failure leaves
        all work as it was. */
    method AssignRecoveryBatch(plan: seq<Part>, worker: nat)
      returns (segments: Option<seq<Segment>>, ghost ops: seq<Op>)
      requires Valid()
      modifies this
      ensures Valid() && acked == old(acked) && Now() == Run(old(Now()), ops)
      ensures segments.Some? <==>
              && RecoveryPlan(old(S()), plan) && !old(stopped)
              && forall i, x: nat :: 0 <= i < |plan| && Covers(plan[i].Range(), x) ==> Missing(old(S()), x)
      ensures segments.Some? ==>
                && |segments.value| == |plan| && MatchesPlan(segments.value, plan) && GapFree(segments.value)
                && Granted(old(S()), S(), segments.value) && NextAttempts(old(S()), segments.value, worker)
      ensures segments.None? ==> SameWork(old(S()), S())
    {
      hide AuditOk, Inv, Granted, Count, Start, End, Missing, Issuable, IssueChain, SameWork, PlanPrefix;
      ops := [];
      SameWorkRefl(S());
      var ok := CheckRecovery(plan);
      if !ok {
        return None, [];
      }
      var issued, ops1, states := IssueAll(plan, worker);
      MatchedSegmentsGapFree(old(S()), issued, plan);
      GrantedWereMissing(old(S()), states[|issued|], plan, issued, worker, states);
      if |issued| < |plan| {
        var ops2 := Rollback(plan, issued, worker, states);
        RunConcat(old(Now()), ops1, ops2);
        return None, ops1 + ops2;
      }
      return Some(issued), ops1;
    }

    // ----- dynamic requests

    /** Runs of untouched pieces inside one stretch of set availability bits, cut apart at
        the pieces that have runtime entries. */
    method CutStretch(from: nat, to: nat) returns (cands: seq<Candidate>)
      requires Valid() && from <= to <= |availablePieces|
      requires forall p :: from <= p < to ==> availablePieces[p]
      requires from > 0 ==> !availablePieces[from - 1]
      requires to < |availablePieces| ==> !availablePieces[to]
      ensures RunsOf(S(), cands, from, to)
    {
      hide AuditOk, Inv, Count, Start, End, IsUntouched, MaximalRun, InRuns;
      AuditInv(Now());
      var g := pieceMap.g;
      cands := [];
      var touched := KeysInRange(pieces, from, to);
      StretchUntouched(S(), from, to, touched);
      var first := from;
      for i := 0 to |touched|
        invariant from <= first <= to
        invariant first == if i == 0 then from else touched[i - 1] + 1
        invariant RunsOf(S(), cands, from, first)
      {
        var cut := touched[i];
        assert cut in touched;
        assert i > 0 ==> touched[i - 1] in touched;
        forall p: nat | first <= p < cut ensures IsUntouched(S(), p) {
          NotTouchedBetween(touched, i, first, p);
        }
        SingleRun(S(), cands, from, first, cut, cut + 1);
        if first < cut {
          cands := cands + [Candidate(Start(g, first), End(g, cut - 1), first, cut)];
        }
        first := cut + 1;
      }
      assert touched != [] ==> touched[|touched| - 1] in touched;
      forall p: nat | first <= p < to ensures IsUntouched(S(), p) {
        NotTouchedBetween(touched, |touched|, first, p);
      }
      SingleRun(S(), cands, from, first, to, to);
      if first < to {
        cands := cands + [Candidate(Start(g, first), End(g, to - 1), first, to)];
      }
    }

    /** Exactly the maximal runs of untouched pieces, in file order. */
    method DynamicCandidates() returns (cands: seq<Candidate>)
      requires Valid()
      ensures RunsOf(S(), cands, 0, Count(pieceMap.g))
    {
      hide AuditOk, Inv, Count, Start, End, MaximalRun, InRuns;
      AuditInv(Now());
      cands := [];
      var pieceCount := Count(pieceMap.g);
      var searchFrom := 0;
      while searchFrom < pieceCount
        invariant 0 <= searchFrom <= pieceCount
        invariant 0 < searchFrom < pieceCount ==> !availablePieces[searchFrom]
        invariant RunsOf(S(), cands, 0, searchFrom)
      {
        var found := FirstOne(availablePieces, searchFrom, pieceCount);
        if found.None? {
          RunsConcat(S(), cands, [], 0, searchFrom, pieceCount, pieceCount);
          assert cands + [] == cands;
          break;
        }
        var from := found.value;
        var to := FirstZero(availablePieces, from);
        var stretch := CutStretch(from, to);
        RunsConcat(S(), cands, stretch, 0, searchFrom, from, to);
        cands := cands + stretch;
        searchFrom := to;
      }
    }

    /** Lease the whole pieces of an untouched run up to the byte `end`, which is the end of
        the piece before `endPiece`. */
    method IssueDynamicCandidate(c: Candidate, end: nat, worker: nat, ghost endPiece: nat)
      returns (segments: Option<seq<Segment>>, ghost ops: seq<Op>)
      requires Valid() && IsRun(pieceMap.g, c)
      requires forall p: nat :: c.firstPiece <= p < c.endPiece ==> IsUntouched(S(), p)
      requires c.firstPiece < endPiece <= c.endPiece && end == End(pieceMap.g, endPiece - 1)
      modifies this
      ensures Valid() && acked == old(acked) && Now() == Run(old(Now()), ops)
      ensures segments.None? <==> old(stopped)
      ensures segments.None? ==> S() == old(S())
      ensures segments.Some? ==>
                && |segments.value| == endPiece - c.firstPiece
                && WholeRun(old(pieceMap).g, c.firstPiece, segments.value, worker)
                && Granted(old(S()), S(), segments.value) && nextCandidate == old(nextCandidate)
    {
      hide AuditOk, Inv, Granted, Count, Start, End, IsUntouched, IsRun, WholeRun;
      ops := [];
      ghost var g := pieceMap.g;
      RunStartsBelow(g, c, endPiece);
      if stopped || end <= c.start {
        return None, [];
      }
      var segs: seq<Segment> := [];
      SameWorkRefl(S());
      SameWorkGrantsNothing(S(), S());
      EmptyWholeRun(g, c.firstPiece, worker);
      var p := c.firstPiece;
      while p < c.endPiece
        invariant c.firstPiece <= p <= endPiece && |segs| == p - c.firstPiece
        invariant Valid() && acked == old(acked) && Now() == Run(old(Now()), ops)
        invariant pieceMap == old(pieceMap) && !stopped && nextCandidate == old(nextCandidate)
        invariant WholeRun(g, c.firstPiece, segs, worker) && Granted(old(S()), S(), segs)
        invariant forall q: nat :: p <= q < c.endPiece ==> IsUntouched(S(), q)
        decreases c.endPiece - p
      {
        RunEndsGrow(g, c, p, endPiece);
        if End(pieceMap.g, p) > end {
          break;
        }
        ghost var before := S();
        var segment, ops1 := IssueWhole(p, worker);
        RunConcat(old(Now()), ops, ops1);
        ops := ops + ops1;
        GrantedCompose(old(S()), before, S(), segs, [segment.value]);
        WholeRunAppend(g, c.firstPiece, segs, worker, segment.value);
        segs := segs + [segment.value];
        p := p + 1;
      }
      segments := Some(segs);
    }

    /** Plan and lease one dynamic request. With an untouched run left, the request is the
        planner's end on the run chosen by the slot plan over all maximal runs; otherwise it
        is the next missing range. */
    method AssignDynamicRequest(worker: nat, slotsFree: nat, minSplitConfigured: nat, maxRequest: nat)
      returns (a: Option<RequestAssignment>, ghost ops: seq<Op>)
      requires Valid() && slotsFree > 0 && availableRangeCount > 0
      modifies this
      ensures Valid() && Now() == Run(old(Now()), ops)
      ensures a.None? <==> old(stopped)
      ensures a.None? ==> S() == old(S())
      ensures a.Some? ==> OneRun(old(S()), S(), a.value.segments, worker)
      ensures a.Some? ==> RequestBytes(a.value.segments) <= Max(maxRequest, pieceMap.g.pieceSize)
      ensures pieceMap == old(pieceMap)
      ensures a.Some? ==> DynamicRequest(old(S()), slotsFree, minSplitConfigured, maxRequest, worker, a.value)
    {
      hide AuditOk, Inv, Granted, Count, Start, End, IsUntouched, IsRun, WholeRun, MaximalRun;
      hide Share, EndPiece, RequestEnd, ShareEndPiece, EffectiveMinSplit, Allocation, NoWorseThan, LargestAmong;
      ops := [];
      var runs := DynamicCandidates();
      NoRunsNoUntouched(S(), runs);
      if runs == [] {
        var segment, ops1 := AssignTo(worker);
        ops := ops1;
        if segment.None? {
          a := None;
          return;
        }
        SingleIsRun(old(S()), S(), segment.value, worker);
        a := Some(RequestAssignment([segment.value], segment.value.end, Single));
        return;
      }
      var g := pieceMap.g;
      var minSplit := EffectiveMinSplit(g.pieceSize, minSplitConfigured);
      MinSplitPositive(g.pieceSize, minSplitConfigured);
      RunsNonEmpty(S(), runs);
      var plan, slots, index := PlanDynamicShare(g, runs, slotsFree, minSplit);
      var run := plan.value.candidate;
      assert MaximalRun(S(), runs[index]);
      RunIsUntouched(S(), run);
      ghost var d, k := RequestEndBounds(g, run, plan.value.slots, minSplit, maxRequest);
      var desired := ShareEndPiece(g, run, plan.value.slots, minSplit);
      var targetEnd := End(g, desired - 1);
      var (finalEnd, reason) := RequestEnd(g, run, desired, minSplit, maxRequest);
      var segments, ops2 := IssueDynamicCandidate(run, finalEnd, worker, k);
      ops := ops2;
      if segments.None? {
        a := None;
        return;
      }
      GrantedFrame(old(S()), S(), segments.value);
      WholeRunShape(g, run, k, segments.value, worker);
      a := Some(RequestAssignment(segments.value, targetEnd, reason));
      assert PlannedRequest(old(S()), slotsFree, minSplit, maxRequest, worker, a.value, runs, slots, index);
    }

    /** End of the untouched run that follows a whole piece (diagnostics only). */
    method FreshRunEnd(firstPiece: nat) returns (end: nat)
      requires Valid()
      ensures exists k: nat :: firstPiece < k && FreshRun(S(), firstPiece, k) && end == End(pieceMap.g, k - 1)
    {
      hide Inv, Unacked, Start, End, Count;
      AuditInv(Now());
      var e := firstPiece + 1;
      while e < Count(pieceMap.g) && availablePieces[e] && !IsComplete(pieceMap, e) && e !in pieces
        invariant e > firstPiece
        invariant forall p: nat :: firstPiece < p < e ==> IsUntouched(S(), p)
        decreases Count(pieceMap.g) - e
      {
        e := e + 1;
      }
      end := End(pieceMap.g, e - 1);
      assert FreshRun(S(), firstPiece, e);
    }

    /** One fixed-mode request: a lease, extended only on its first attempt. */
    method AssignFixedRequest(worker: nat, maxRequests: nat, minSegment: nat, occupied: nat, batchSize: nat,
                              slotsFree: nat, collectDiagnostics: bool)
      returns (a: Option<RequestAssignment>, ghost ops: seq<Op>)
      requires Valid() && availableRangeCount > 0
      modifies this
      ensures Valid() && Now() == Run(old(Now()), ops)
      ensures a.None? <==> old(stopped)
      ensures a.None? ==> S() == old(S())
      ensures a.Some? ==> OneRun(old(S()), S(), a.value.segments, worker)
      ensures a.Some? && |a.value.segments| > 1 ==> RequestBytes(a.value.segments) <= batchSize
      ensures availableRangeCount >= Min(old(availableRangeCount) - 1, maxRequests - occupied - 1)
      ensures a.Some? ==>
                && FixedRequest(old(S()), S(), slotsFree, minSegment, batchSize, Max(maxRequests - occupied - 1, 0),
                                worker, a.value)
                && FixedTarget(old(S()), batchSize, collectDiagnostics, a.value)
    {
      hide AuditOk, Inv, Granted, Count, Start, End, Batch, IsUntouched, BatchStops, CursorBehind, IsNextAvailable,
           SplitOf, FixedRequest, PieceAt;
      var first, ops1 := AssignToWithSplit(worker, activeLeaseCount + slotsFree, minSegment);
      ops := ops1;
      if first.None? {
        return None, ops;
      }
      var seg := first.value;
      ghost var mid := S();
      var batchAllowed := seg.attempt == 1;
      var targetEnd := seg.end;
      if && collectDiagnostics && batchAllowed && batchSize > seg.end - seg.start
         && FreshWholeLease(pieceMap.g, pieces, seg) {
        targetEnd := FreshRunEnd(seg.piece);
        ghost var k: nat :| FreshRun(S(), seg.piece, k) && targetEnd == End(pieceMap.g, k - 1);
        SameFreshRun(S(), old(S()), seg.piece, k);
      }
      ghost var reserved := Max(maxRequests - occupied - 1, 0);
      if !batchAllowed {
        SingleIsRun(old(S()), S(), seg, worker);
        RetriedRequest(old(S()), S(), slotsFree, minSegment, batchSize, reserved, worker, seg, targetEnd);
        return Some(RequestAssignment([seg], targetEnd, RecoveredOrRetried)), ops;
      }
      var additional, reason, ops2 := ExtendBatch(seg, worker, maxRequests, occupied, batchSize);
      RunConcat(old(Now()), ops1, ops2);
      ops := ops1 + ops2;
      BatchIsRun(old(S()), mid, S(), seg, additional, worker, batchSize);
      a := Some(RequestAssignment([seg] + additional, targetEnd, reason));
      BatchRequest(old(S()), S(), slotsFree, minSegment, batchSize, reserved, worker, seg, additional, a.value);
    }

    /** One new HTTP request. It is refused exactly when no slot is free, nothing is missing
        or the scheduler is stopped; otherwise the mode decides how it is chosen. */
    method AssignRequest(worker: nat, maxRequests: nat, minSegment: nat, occupied: nat, mode: Mode, batchSize: nat,
                         minSplit: nat, maxRequest: nat, allowBatch: bool, collectDiagnostics: bool)
      returns (a: Option<RequestAssignment>, ghost ops: seq<Op>)
      requires Valid()
      modifies this
      ensures Valid() && Now() == Run(old(Now()), ops)
      ensures a.None? <==> maxRequests <= occupied || old(availableRangeCount) == 0 || old(stopped)
      ensures a.None? ==> S() == old(S())
      ensures a.Some? ==> OneRun(old(S()), S(), a.value.segments, worker)
      ensures a.Some? && !allowBatch ==> |a.value.segments| == 1
      ensures a.Some? && mode == Dynamic ==> RequestBytes(a.value.segments) <= Max(maxRequest, pieceMap.g.pieceSize)
      ensures a.Some? && mode == Fixed && |a.value.segments| > 1 ==> RequestBytes(a.value.segments) <= batchSize
      ensures a.Some? && allowBatch && mode == Fixed ==>
                availableRangeCount >= Min(old(availableRangeCount) - 1, maxRequests - occupied - 1)
      ensures a.Some? && !allowBatch ==> NextRange(old(S()), a.value)
      ensures a.Some? && allowBatch && mode == Dynamic ==>
                DynamicRequest(old(S()), Max(maxRequests - occupied, 0), minSplit, maxRequest, worker, a.value)
      ensures a.Some? && allowBatch && mode == Fixed ==>
                && FixedRequest(old(S()), S(), Max(maxRequests - occupied, 0), minSegment, batchSize,
                                Max(maxRequests - occupied - 1, 0), worker, a.value)
                && FixedTarget(old(S()), batchSize, collectDiagnostics, a.value)
    {
      hide AuditOk, Inv, Granted, Count, Start, End, DynamicRequest, FixedRequest, FixedTarget, IsNextAvailable;
      var slotsFree := Max(maxRequests - occupied, 0);
      if slotsFree == 0 || availableRangeCount == 0 {
        return None, [];
      }
      if !allowBatch {
        var segment, ops1 := AssignTo(worker);
        ops := ops1;
        if segment.None? {
          return None, ops;
        }
        SingleIsRun(old(S()), S(), segment.value, worker);
        return Some(RequestAssignment([segment.value], segment.value.end, Single)), ops;
      }
      match mode {
        case Fixed =>
          a, ops := AssignFixedRequest(worker, maxRequests, minSegment, occupied, batchSize, slotsFree,
                                       collectDiagnostics);
        case Dynamic =>
          a, ops := AssignDynamicRequest(worker, slotsFree, minSplit, maxRequest);
      }
    }
  }
}
