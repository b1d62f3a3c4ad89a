/** Facts about requests: what a refused or rolled-back issue leaves behind, which
    pieces are untouched, and how a single range is split for spare workers. */
module RequestLaws {
  import opened Arith
  import opened Ranges
  import opened RangeLaws
  import opened PieceMaps
  import opened Leases
  import opened LeaseLaws
  import opened Planner
  import opened SchedulerModel
  import opened SchedulerLaws
  import opened SchedulerTheorems

  lemma RunSnoc(a: Audit, ops: seq<Op>, op: Op)
    requires AuditOk(a)
    ensures AuditOk(Run(a, ops))
    ensures Run(a, ops + [op]) == Next(Run(a, ops), op)
  {
    hide Inv, Unacked, Next;
    RunConcat(a, ops, [op]);
    var b := Run(a, ops);
    StepKeepsAudit(b, op);
    assert [op][1..] == [];
    assert Run(b, [op]) == Run(Next(b, op), []);
  }

  /** Equal work means no byte and no lease changed hands. */
  lemma SameWorkGrantsNothing(s: State, s': State)
    requires SameWork(s, s')
    ensures Granted(s, s', [])
    ensures forall key :: Active(s', key) <==> Active(s, key)
  {
    hide Count, PieceOf, Start, End, Has;
    SumToSame(MissingCounts(s), MissingCounts(s'), Count(s.pm.g));
    forall key ensures Active(s', key) <==> Active(s, key) {
      assert PieceAt(s', key.piece).leases == PieceAt(s, key.piece).leases;
    }
    forall key | Active(s, key) ensures RangeOf(s', key) == RangeOf(s, key) {
      assert PieceAt(s', key.piece).leases == PieceAt(s, key.piece).leases;
    }
  }

  lemma SameWorkRefl(s: State)
    ensures SameWork(s, s)
  {
  }

  lemma SeekKeepsWork(s: State, c: nat)
    ensures SameWork(s, s.(cursor := c))
  {
    assert forall p :: PieceAt(s.(cursor := c), p) == PieceAt(s, p);
  }

  /** Undoing one issue: reclaiming the lease in any state with the same work as right
      after the issue gives the same work as right before it. */
  lemma RollbackStep(s: State, p: nat, r: ByteRange, worker: nat, s1: State, seg: Segment, cur: State)
    requires Inv(s) && Inv(cur) && Issuable(s, p, r) && p < |s.available|
    requires IssueLease(s, p, r, worker) == (s1, Some(seg)) && SameWork(s1, cur)
    ensures Active(cur, seg.Key()) && p < |cur.available|
    ensures SameWork(s, ReclaimLease(cur, seg.Key()).0)
  {
    hide Count, PieceOf, Start, End, PieceOk, PiecesOk, IndexesOk, PieceMaps.Valid, Insert, Remove;
    PieceAtOk(s, p);
    var q := PieceAt(s, p);
    FreshLeaseRestored(q, r, Start(s.pm.g, p), End(s.pm.g, p), s.nextId);
    var q1 := s1.pieces[p];
    assert q1 == PieceAt(s1, p);
    assert PieceAt(cur, p).leases == q1.leases && seg.lease in q1.leases;
    assert p in cur.pieces;
    RollbackWork(s, p, r, s1, q1, seg.lease, cur);
  }

  lemma RollbackWork(s: State, p: nat, r: ByteRange, s1: State, q1: PieceState, id: nat, cur: State)
    requires p < |s.available| && s.available[p] && p in cur.pieces && id in q1.leases
    requires s1.pm == s.pm && s1.stopped == s.stopped && s.nextId <= s1.nextId
    requires s1.pieces == s.pieces[p := q1] && s1.available == s.available[p := q1.missing != []]
    requires s1.leaseCount == s.leaseCount + 1
    requires s1.rangeCount == s.rangeCount - |PieceAt(s, p).missing| + |q1.missing|
    requires q1.leases[id] == r && Insert(q1.missing, r) == PieceAt(s, p).missing
    requires q1.leases - {id} == PieceAt(s, p).leases && q1.hasCompleted == PieceAt(s, p).hasCompleted
    requires SameWork(s1, cur)
    ensures Active(cur, LeaseKey(p, id)) && p < |cur.available|
    ensures SameWork(s, ReclaimLease(cur, LeaseKey(p, id)).0)
  {
    hide Insert, Start, End;
    assert PieceAt(s1, p) == q1;
    var s' := ReclaimLease(cur, LeaseKey(p, id)).0;
    assert s'.pieces[p].missing == PieceAt(s, p).missing && s'.pieces[p].leases == PieceAt(s, p).leases;
    forall k
      ensures PieceAt(s', k).missing == PieceAt(s, k).missing && PieceAt(s', k).leases == PieceAt(s, k).leases
      ensures PieceAt(s', k).hasCompleted == PieceAt(s, k).hasCompleted
    {
      if k != p {
        assert PieceAt(s1, k) == PieceAt(s, k) && PieceAt(s', k) == PieceAt(cur, k);
      }
    }
  }

  lemma FreshLeaseRestored(q: PieceState, r: ByteRange, lo: nat, hi: nat, id: nat)
    requires PieceOk(q, lo, hi, id) && r.start < r.end && IssueIn(q, r, id).Some?
    ensures var q1 := IssueIn(q, r, id).value;
            && Insert(q1.missing, r) == q.missing && q1.leases - {id} == q.leases
            && q.missing != []
  {
    IssueReclaimRestores(q, r, lo, hi, id);
  }

  // ----- untouched pieces

  predicate IsUntouched(s: State, p: nat) {
    p < Count(s.pm.g) && p < |s.available| && s.available[p] && !IsComplete(s.pm, p) && p !in s.pieces
  }

  /** The pieces after `first` up to `k` are untouched, and `k` is not. */
  ghost predicate FreshRun(s: State, first: nat, k: nat) {
    first < k && (forall p: nat :: first < p < k ==> IsUntouched(s, p)) && !IsUntouched(s, k)
  }

  lemma SameFreshRun(s: State, t: State, first: nat, k: nat)
    requires FreshRun(s, first, k)
    requires forall p: nat :: p != first ==> (IsUntouched(s, p) <==> IsUntouched(t, p))
    ensures FreshRun(t, first, k)
  {
  }

  lemma UntouchedIffAvailable(s: State, p: nat)
    requires Inv(s) && p < Count(s.pm.g)
    ensures p < |s.available| && (IsUntouched(s, p) <==> s.available[p] && p !in s.pieces)
  {
    hide Count, Start, End;
    InvShape(s);
    if s.available[p] {
      AvailableNeedsRange(s, p);
    }
  }

  /** An untouched piece is missing as a whole, and nothing of it is leased. */
  lemma UntouchedIsMissing(s: State, p: nat)
    requires Inv(s) && IsUntouched(s, p)
    ensures Issuable(s, p, PieceRange(s.pm.g, p))
    ensures forall x: nat :: Covers(PieceRange(s.pm.g, p), x) ==> Missing(s, x)
  {
    PieceBounds(s.pm.g, p);
    NewPieceOk(Start(s.pm.g, p), End(s.pm.g, p), s.nextId);
    var r := PieceRange(s.pm.g, p);
    HasOne(r);
    MissingInPiece(s, p, r);
  }

  /** For an incomplete piece without an entry the availability bit is always set. */
  lemma UntouchedExact(s: State, p: nat)
    requires Inv(s) && p < Count(s.pm.g)
    ensures IsUntouched(s, p) <==> !IsComplete(s.pm, p) && p !in s.pieces
  {
    if !IsComplete(s.pm, p) && p !in s.pieces {
      PieceAtOk(s, p);
      PieceBounds(s.pm.g, p);
      NewPieceOk(Start(s.pm.g, p), End(s.pm.g, p), s.nextId);
    }
  }

  /** Issuing an untouched piece as a whole: granted unless the scheduler is stopped, one
      available range fewer, and other pieces stay untouched. */
  lemma IssueWholePiece(s: State, p: nat, worker: nat) returns (s': State, seg: Option<Segment>)
    requires Inv(s) && IsUntouched(s, p)
    ensures (s', seg) == IssueLease(s, p, PieceRange(s.pm.g, p), worker)
    ensures Inv(s')
    ensures seg.Some? <==> !s.stopped
    ensures seg.None? ==> s' == s
    ensures seg.Some? ==>
              && Granted(s, s', [seg.value]) && s'.rangeCount == s.rangeCount - 1
              && seg.value.piece == p && seg.value.Range() == PieceRange(s.pm.g, p) && seg.value.owner == worker
              && seg.value.attempt == 1 && s'.cursor == s.cursor
              && (forall q: nat :: q != p ==> (IsUntouched(s', q) <==> IsUntouched(s, q)))
  {
    hide Inv, Granted, Count, Missing, Start, End;
    UntouchedIsMissing(s, p);
    s', seg := IssueEffect(s, p, PieceRange(s.pm.g, p), worker);
    if seg.Some? {
      WholeIssueCounts(s, p, worker);
    }
  }

  lemma WholeIssueCounts(s: State, p: nat, worker: nat)
    requires Inv(s) && IsUntouched(s, p) && !s.stopped
    requires IssueLease(s, p, PieceRange(s.pm.g, p), worker).1.Some?
    ensures IssueLease(s, p, PieceRange(s.pm.g, p), worker).0.rangeCount == s.rangeCount - 1
  {
    hide IndexesOk, PiecesOk;
    PieceBounds(s.pm.g, p);
    var r := PieceRange(s.pm.g, p);
    assert PieceAt(s, p).missing == [r];
    assert Cut(r, r) + [r][1..] == [];
  }

  /** Issuing a prefix of a piece's first missing range: granted unless the scheduler is
      stopped, and at most one available range fewer. */
  lemma IssuePrefix(s: State, p: nat, r: ByteRange, worker: nat) returns (s': State, seg: Option<Segment>)
    requires Inv(s) && p < Count(s.pm.g) && !IsComplete(s.pm, p) && PieceAt(s, p).missing != []
    requires r.start == PieceAt(s, p).missing[0].start < r.end <= PieceAt(s, p).missing[0].end
    ensures Issuable(s, p, r)
    ensures p < |s.available| && (s', seg) == IssueLease(s, p, r, worker)
    ensures Inv(s')
    ensures seg.Some? <==> !s.stopped
    ensures seg.None? ==> s' == s
    ensures seg.Some? ==>
              && Granted(s, s', [seg.value]) && s'.rangeCount >= s.rangeCount - 1
              && seg.value.piece == p && seg.value.Range() == r && seg.value.owner == worker
              && seg.value.attempt == PieceAt(s, p).attempts + 1
              && (forall q: nat :: q != p ==> (IsUntouched(s', q) <==> IsUntouched(s, q)))
  {
    hide Inv, Granted, Missing, Count, Start, End, PieceOk;
    PieceAtOk(s, p);
    FirstRangeInside(PieceAt(s, p), Start(s.pm.g, p), End(s.pm.g, p), s.nextId);
    var first := PieceAt(s, p).missing[0];
    MissingInPiece(s, p, r);
    assert forall x: nat :: Covers(r, x) ==> Covers(PieceAt(s, p).missing[0], x);
    s', seg := IssueEffect(s, p, r, worker);
    assert |Cut(first, r)| >= 0;
    assert Remove(PieceAt(s, p).missing, r) == Some(Cut(first, r) + PieceAt(s, p).missing[1..]);
  }

  lemma FirstRangeInside(q: PieceState, lo: nat, hi: nat, nextId: nat)
    requires PieceOk(q, lo, hi, nextId) && q.missing != []
    ensures lo <= q.missing[0].start < q.missing[0].end <= hi
  {
  }

  // ----- the search for the next piece

  /** The next piece with missing bytes, searched cyclically from the cursor. */
  ghost predicate IsNextAvailable(bits: seq<bool>, cursor: nat, p: nat) {
    && p < |bits| && bits[p]
    && (cursor <= p ==> forall i :: cursor <= i < p && i < |bits| ==> !bits[i])
    && (p < cursor ==> forall i :: 0 <= i < |bits| && (i < p || cursor <= i) ==> !bits[i])
  }

  /** The search goes on behind piece `p`, cyclically. */
  predicate CursorBehind(s: State, p: nat) {
    s.cursor == if p + 1 == Count(s.pm.g) then 0 else p + 1
  }

  lemma AdvanceCursor(s: State, p: nat)
    requires p < Count(s.pm.g)
    ensures (p + 1) % Count(s.pm.g) < Count(s.pm.g)
    ensures CursorBehind(s.(cursor := (p + 1) % Count(s.pm.g)), p)
  {
    hide Count;
    if p + 1 < Count(s.pm.g) {
      DivUnique(p + 1, Count(s.pm.g), 0);
    } else {
      DivUnique(p + 1, Count(s.pm.g), 1);
    }
  }

  /** A lease of a whole piece takes its only missing range, and no other lease is on it. */
  lemma WholeGrant(s: State, p: nat, worker: nat, s': State, seg: Segment)
    requires Inv(s) && p < |s.available| && Issuable(s, p, PieceRange(s.pm.g, p))
    requires IssueLease(s, p, PieceRange(s.pm.g, p), worker) == (s', Some(seg))
    ensures p in s'.pieces && s'.pieces[p].missing == [] && s'.pieces[p].leases == map[seg.lease := seg.Range()]
    ensures s'.pieces[p].hasCompleted == PieceAt(s, p).hasCompleted
  {
    hide Inv, Count, Start, End, Has, Remove;
    PieceAtOk(s, p);
    var q, r := PieceAt(s, p), PieceRange(s.pm.g, p);
    IssueInEffect(q, r, Start(s.pm.g, p), End(s.pm.g, p), s.nextId);
    NothingBeside(q, s'.pieces[p], r, s.nextId);
  }

  lemma EmptyOrNot(rs: seq<ByteRange>)
    requires Canonical(rs)
    ensures rs == [] || exists x :: Has(rs, x)
  {
    assert rs != [] ==> Covers(rs[0], rs[0].start) && Has(rs, rs[0].start);
  }

  lemma NothingBeside(q: PieceState, q': PieceState, r: ByteRange, id: nat)
    requires PieceOk(q, r.start, r.end, id) && r.start < r.end && IssueIn(q, r, id) == Some(q')
    requires forall x :: Has(q'.missing, x) <==> Has(q.missing, x) && !Covers(r, x)
    ensures q'.missing == [] && q'.leases == map[id := r]
  {
    hide Remove;
    RemoveCorrect(q.missing, r);
    AllTaken(q.missing, q'.missing, r);
    NoOtherLease(q, r, id);
  }

  lemma AllTaken(rs: seq<ByteRange>, out: seq<ByteRange>, r: ByteRange)
    requires Canonical(out) && Within(rs, r.start, r.end)
    requires forall x :: Has(out, x) <==> Has(rs, x) && !Covers(r, x)
    ensures out == []
  {
    EmptyOrNot(out);
  }

  lemma NoOtherLease(q: PieceState, r: ByteRange, id: nat)
    requires PieceOk(q, r.start, r.end, id) && forall x :: Covers(r, x) ==> Has(q.missing, x)
    ensures q.leases == map[]
  {
    hide Has, Canonical, Within;
    assert forall other :: other in q.leases ==> Covers(q.leases[other], q.leases[other].start);
    assert forall other :: other in q.leases ==> Covers(r, q.leases[other].start);
  }

  // ----- splitting one range for spare workers

  /** `assignment_range_for`: the whole range, or a prefix sized for the spare workers. */
  function AssignmentRange(range: ByteRange, workUnits: nat, maxActive: nat, minSegment: nat): (r: ByteRange)
    requires range.start < range.end
    ensures r.start == range.start && r.start < r.end <= range.end
    ensures r != range ==> r.end - r.start >= minSegment && range.end - r.end >= minSegment
    ensures r != range ==> workUnits < maxActive
  {
    if maxActive <= 1 || minSegment == 0 || workUnits >= maxActive then range
    else
      var len := range.end - range.start;
      if len <= minSegment then range
      else
        var desired := maxActive - workUnits + 1;
        var segmentLen := Max(DivCeil(len, desired), minSegment);
        if segmentLen >= len || len - segmentLen < minSegment then range
        else ByteRange(range.start, range.start + segmentLen)
  }

  /** `range` is the split rule's part of the first missing range of piece `p`. */
  ghost predicate SplitOf(s: State, p: nat, maxActive: nat, minSegment: nat, range: ByteRange) {
    var rs := PieceAt(s, p).missing;
    && rs != [] && rs[0].start < rs[0].end && s.leaseCount + s.rangeCount >= 0
    && range == AssignmentRange(rs[0], s.leaseCount + s.rangeCount, maxActive, minSegment)
  }

  lemma SplitChosen(s: State, p: nat, maxActive: nat, minSegment: nat)
    requires Inv(s) && p < |s.available| && s.available[p]
    ensures PieceAt(s, p).missing != [] && PieceAt(s, p).missing[0].start < PieceAt(s, p).missing[0].end
    ensures s.leaseCount + s.rangeCount >= 0
    ensures SplitOf(s, p, maxActive, minSegment,
                    AssignmentRange(PieceAt(s, p).missing[0], s.leaseCount + s.rangeCount, maxActive, minSegment))
  {
    hide Inv, AssignmentRange, Count;
    AvailableNeedsRange(s, p);
    CountersCover(s, p);
  }

  /** The split rule: a range is split exactly when workers are spare and both parts reach the
      minimum; the part handed out is then the fair share among the spare workers and this
      one, or the minimum if that is larger. */
  lemma SplitRule(range: ByteRange, workUnits: nat, maxActive: nat, minSegment: nat)
    requires range.start < range.end
    ensures var r := AssignmentRange(range, workUnits, maxActive, minSegment);
            var len, part, units := range.end - range.start, r.end - r.start, maxActive - workUnits + 1;
            && (r != range <==> 1 < maxActive && 0 < minSegment && workUnits < maxActive
                                && 2 * minSegment <= len && DivCeil(len, units) + minSegment <= len)
            && (r != range ==> part * units >= len && (part == minSegment || (part - 1) * units < len))
  {
    var len, units := range.end - range.start, maxActive - workUnits + 1;
    if 1 < maxActive && 0 < minSegment && workUnits < maxActive && len > minSegment {
      FairShare(len, units);
      var part := Max(DivCeil(len, units), minSegment);
      MulMono(DivCeil(len, units), part, units);
    }
  }

  lemma FairShare(len: nat, units: nat)
    requires units > 0 && len > 0
    ensures DivCeil(len, units) * units >= len && (DivCeil(len, units) - 1) * units < len
  {
    assert len == (len / units) * units + len % units;
  }

  // ----- small facts for the scheduler's methods

  lemma CursorInRange(s: State)
    requires Inv(s)
    ensures s.cursor <= Count(s.pm.g)
  {
  }

  /** A set availability bit comes with a first missing range, also for an untouched piece. */
  lemma AvailableNeedsRange(s: State, p: nat)
    requires Inv(s) && p < |s.available| && s.available[p]
    ensures p < Count(s.pm.g) && !IsComplete(s.pm, p) && PieceAt(s, p).missing != []
    ensures PieceAt(s, p).missing[0] == if p in s.pieces then s.pieces[p].missing[0] else PieceRange(s.pm.g, p)
    ensures PieceAt(s, p).missing[0].start < PieceAt(s, p).missing[0].end
    ensures p in s.pieces ==> s.pieces[p].missing != []
  {
    PieceAtOk(s, p);
  }

  lemma ShortLease(s: State, p: nat, r: ByteRange)
    requires Issuable(s, p, r)
    ensures r.end - r.start <= s.pm.g.pieceSize
  {
    PieceBounds(s.pm.g, p);
  }

  lemma TwoSteps(a: Audit, first: Op, second: Op)
    requires AuditOk(a)
    ensures AuditOk(Next(a, first)) && AuditOk(Next(Next(a, first), second))
    ensures Run(a, [first, second]) == Next(Next(a, first), second)
  {
    hide Inv, Unacked, Step;
    StepKeepsAudit(a, first);
    StepKeepsAudit(Next(a, first), second);
    assert [first, second][1..] == [second] && [second][1..] == [];
    var b := Next(Next(a, first), second);
    assert Run(Next(a, first), [second]) == Run(b, []);
  }

  lemma SeekKeepsGrant(s: State, s': State, c: nat, segs: seq<Segment>)
    requires Granted(s, s', segs)
    ensures Granted(s, s'.(cursor := c), segs)
  {
    hide Missing;
    SeekKeepsWork(s', c);
    SameWorkGrantsNothing(s', s'.(cursor := c));
    GrantedCompose(s, s', s'.(cursor := c), segs, []);
    assert segs + [] == segs;
  }

  // ----- runs of untouched pieces

  /** A run of untouched pieces that cannot be extended on either side. */
  ghost predicate MaximalRun(s: State, c: Candidate) {
    && IsRun(s.pm.g, c)
    && (forall p: nat :: c.firstPiece <= p < c.endPiece ==> IsUntouched(s, p))
    && (c.firstPiece > 0 ==> !IsUntouched(s, c.firstPiece - 1))
    && !IsUntouched(s, c.endPiece)
  }

  /** `cands` are exactly the maximal runs inside the pieces `[lo, hi)`, in order. */
  ghost predicate RunsOf(s: State, cands: seq<Candidate>, lo: nat, hi: nat) {
    && (forall i :: 0 <= i < |cands| ==>
          MaximalRun(s, cands[i]) && lo <= cands[i].firstPiece && cands[i].endPiece <= hi)
    && (forall i, j :: 0 <= i < j < |cands| ==> cands[i].endPiece < cands[j].firstPiece)
    && (forall p: nat :: lo <= p < hi && IsUntouched(s, p) ==> InRuns(cands, p))
  }

  ghost predicate InRuns(cands: seq<Candidate>, p: nat) {
    exists i :: 0 <= i < |cands| && cands[i].firstPiece <= p < cands[i].endPiece
  }

  lemma InRunsConcat(a: seq<Candidate>, b: seq<Candidate>)
    ensures forall p :: InRuns(a, p) || InRuns(b, p) ==> InRuns(a + b, p)
  {
    forall p: nat | InRuns(a, p) || InRuns(b, p) ensures InRuns(a + b, p) {
      if i :| 0 <= i < |a| && a[i].firstPiece <= p < a[i].endPiece {
        assert (a + b)[i] == a[i];
      } else if i :| 0 <= i < |b| && b[i].firstPiece <= p < b[i].endPiece {
        assert (a + b)[|a| + i] == b[i];
      }
    }
  }

  /** Runs of two stretches separated only by touched pieces make up the runs of both. */
  lemma RunsConcat(s: State, a: seq<Candidate>, b: seq<Candidate>, lo: nat, mid: nat, mid': nat, hi: nat)
    requires RunsOf(s, a, lo, mid) && RunsOf(s, b, mid', hi) && lo <= mid <= mid' <= hi
    requires forall p: nat :: mid <= p < mid' ==> !IsUntouched(s, p)
    ensures RunsOf(s, a + b, lo, hi)
  {
    hide IsUntouched, IsRun;
    InRunsConcat(a, b);
    var c := a + b;
    forall i, j | 0 <= i < j < |c| ensures c[i].endPiece < c[j].firstPiece {
      RunNonEmpty(s, c[j]);
      assert MaximalRun(s, c[i]) && MaximalRun(s, c[j]);
      assert IsUntouched(s, c[j].firstPiece) && !IsUntouched(s, c[i].endPiece);
    }
  }

  lemma RunNonEmpty(s: State, c: Candidate)
    requires MaximalRun(s, c)
    ensures c.firstPiece < c.endPiece
  {
  }

  lemma GapFreeAppend(segs: seq<Segment>, next: Segment)
    requires GapFree(segs)
    requires segs != [] ==> next.start == segs[|segs| - 1].end && next.piece == segs[|segs| - 1].piece + 1
    ensures GapFree(segs + [next])
  {
  }

  /** A gap-free request covers exactly the bytes between its ends. */
  lemma {:induction false} GapFreeBytes(segs: seq<Segment>)
    requires segs != [] && GapFree(segs)
    ensures SegmentBytes(segs) == segs[|segs| - 1].end - segs[0].start
  {
    if |segs| > 1 {
      GapFreeBytes(segs[1..]);
    }
  }

  // ----- batches

  function LastEnd(first: Segment, additional: seq<Segment>): nat {
    if additional == [] then first.end else additional[|additional| - 1].end
  }

  /** Whole pieces that continue `first` without a gap, within the lease and byte limits. */
  ghost predicate Batch(g: Geometry, first: Segment, additional: seq<Segment>, worker: nat, byteCap: nat) {
    && GapFree([first] + additional) && |additional| < MAX_REQUEST_LEASES
    && (additional != [] ==> LastEnd(first, additional) - first.start <= byteCap)
    && (forall i :: 0 <= i < |additional| ==>
          && additional[i].Range() == PieceRange(g, additional[i].piece)
          && additional[i].piece == first.piece + 1 + i
          && additional[i].owner == worker && additional[i].attempt == 1)
  }

  /** Why a batch of `n` pieces after `first` was not extended further. */
  ghost predicate BatchStops(s: State, first: Segment, n: nat, worker: nat, byteCap: nat, reserved: int,
                             reason: Reason)
  {
    var next, whole := first.piece + 1 + n, PieceRange(s.pm.g, first.piece);
    match reason
    case FirstLeaseNotFound => n == 0 && !Active(s, first.Key())
    case FirstLeaseNotWhole =>
      && n == 0 && Active(s, first.Key())
      && (first.owner != worker || first.Range() != whole || RangeOf(s, first.Key()) != whole)
    case BatchDisabled => n == 0 && byteCap == 0
    case CandidateExhausted => next >= Count(s.pm.g)
    case LeaseLimit => n + 1 == MAX_REQUEST_LEASES
    case SlotsReserved => s.rangeCount <= reserved
    case CandidateBoundary => next < Count(s.pm.g) && !IsUntouched(s, next)
    case MaxRequestBytes => IsUntouched(s, next) && End(s.pm.g, next) - first.start > byteCap
    case LeaseIssueFailed => s.stopped
    case _ => false
  }

  lemma StopsWhenStopped(s: State, first: Segment, n: nat, worker: nat, byteCap: nat, reserved: int)
    requires s.stopped
    ensures BatchStops(s, first, n, worker, byteCap, reserved, LeaseIssueFailed)
  {
  }

  lemma StopsAtTheEnd(s: State, first: Segment, n: nat, worker: nat, byteCap: nat, reserved: int)
    requires first.piece + 1 + n >= Count(s.pm.g)
    ensures BatchStops(s, first, n, worker, byteCap, reserved, CandidateExhausted)
  {
  }

  lemma BatchReaches(g: Geometry, first: Segment, additional: seq<Segment>, worker: nat, byteCap: nat)
    requires Batch(g, first, additional, worker, byteCap) && first.Range() == PieceRange(g, first.piece)
    requires first.piece + |additional| + 1 < Count(g)
    ensures LastEnd(first, additional) == Start(g, first.piece + |additional| + 1)
    ensures additional != [] ==> LastEnd(first, additional) - first.start <= byteCap
    ensures |additional| < MAX_REQUEST_LEASES
  {
    PiecesTile(g, first.piece + |additional|, first.piece + |additional| + 1);
  }

  lemma BatchEmpty(g: Geometry, first: Segment, worker: nat, byteCap: nat)
    ensures Batch(g, first, [], worker, byteCap)
  {
    assert [first] + [] == [first];
  }

  lemma BatchAppend(g: Geometry, first: Segment, additional: seq<Segment>, worker: nat, byteCap: nat, next: Segment)
    requires Batch(g, first, additional, worker, byteCap) && |additional| + 1 < MAX_REQUEST_LEASES
    requires next.Range() == PieceRange(g, next.piece) && next.owner == worker && next.attempt == 1
    requires next.piece == first.piece + 1 + |additional| && next.start == LastEnd(first, additional)
    requires next.end - first.start <= byteCap
    ensures Batch(g, first, additional + [next], worker, byteCap)
    ensures LastEnd(first, additional + [next]) == next.end
  {
    hide PieceRange;
    assert [first] + (additional + [next]) == [first] + additional + [next];
    GapFreeAppend([first] + additional, next);
  }

  lemma GrantedFrame(s: State, s': State, segs: seq<Segment>)
    requires Granted(s, s', segs)
    ensures s'.pm == s.pm && s'.stopped == s.stopped
  {
  }

  // ----- recovery batches

  /** One planned part of a piece. */
  datatype Part = Part(piece: nat, start: nat, end: nat) {
    function Range(): ByteRange {
      ByteRange(start, end)
    }
  }

  /** Between 1 and 64 parts of incomplete pieces, each continuing the previous one. */
  ghost predicate RecoveryPlan(s: State, plan: seq<Part>) {
    && 0 < |plan| <= MAX_REQUEST_LEASES
    && PlanPrefix(s, plan, |plan|)
  }

  ghost predicate PlanPrefix(s: State, plan: seq<Part>, n: nat)
    requires n <= |plan|
  {
    && (forall i :: 0 <= i < n ==> Issuable(s, plan[i].piece, plan[i].Range()))
    && (forall i :: 0 < i < n ==> plan[i].piece == plan[i - 1].piece + 1 && plan[i].start == plan[i - 1].end)
  }

  /** The states passed through while the parts `plan[..|segs|]` were issued one by one. */
  ghost predicate IssueChain(states: seq<State>, plan: seq<Part>, segs: seq<Segment>, worker: nat) {
    && |states| == |segs| + 1 && |segs| <= |plan|
    && forall k :: 0 <= k < |segs| ==>
         && Inv(states[k]) && Issuable(states[k], plan[k].piece, plan[k].Range())
         && plan[k].piece < |states[k].available|
         && IssueLease(states[k], plan[k].piece, plan[k].Range(), worker) == (states[k + 1], Some(segs[k]))
  }

  lemma ChainAppend(states: seq<State>, plan: seq<Part>, segs: seq<Segment>, worker: nat, s': State, seg: Segment)
    requires IssueChain(states, plan, segs, worker) && |segs| < |plan|
    requires var i := |segs|;
             && Inv(states[i]) && Issuable(states[i], plan[i].piece, plan[i].Range())
             && plan[i].piece < |states[i].available|
             && IssueLease(states[i], plan[i].piece, plan[i].Range(), worker) == (s', Some(seg))
    ensures IssueChain(states + [s'], plan, segs + [seg], worker)
  {
    hide Inv, Issuable, IssueLease;
  }

  /** The issued segments are the planned parts, in order. */
  ghost predicate MatchesPlan(segs: seq<Segment>, plan: seq<Part>) {
    && |segs| <= |plan|
    && forall i :: 0 <= i < |segs| ==> segs[i].piece == plan[i].piece && segs[i].Range() == plan[i].Range()
  }

  lemma MatchedSegmentsGapFree(s: State, segs: seq<Segment>, plan: seq<Part>)
    requires MatchesPlan(segs, plan) && PlanPrefix(s, plan, |plan|)
    ensures GapFree(segs)
    ensures forall i, x :: |segs| <= i < |plan| && Covers(plan[i].Range(), x) ==> !InSegments(segs, x)
  {
    hide Issuable;
    forall i, x | |segs| <= i < |plan| && Covers(plan[i].Range(), x) ensures !InSegments(segs, x) {
      forall k | 0 <= k < |segs| ensures !Covers(segs[k].Range(), x) {
        PlanAscends(s, plan, k, i);
      }
    }
    forall i | 0 <= i < |segs| - 1 ensures segs[i + 1].start == segs[i].end && segs[i + 1].piece == segs[i].piece + 1 {
      assert plan[i + 1].start == plan[i + 1 - 1].end && plan[i + 1].piece == plan[i + 1 - 1].piece + 1;
      assert segs[i].Range().end == segs[i].end && segs[i + 1].Range().start == segs[i + 1].start;
    }
  }

  lemma {:induction false} PlanAscends(s: State, plan: seq<Part>, k: nat, i: nat)
    requires PlanPrefix(s, plan, |plan|) && k < i < |plan|
    ensures plan[k].end <= plan[i].start && plan[k].piece < plan[i].piece
    decreases i
  {
    hide Start, End, Count;
    assert plan[i].start == plan[i - 1].end;
    if k < i - 1 {
      PlanAscends(s, plan, k, i - 1);
      assert Issuable(s, plan[i - 1].piece, plan[i - 1].Range());
    }
  }

  /** The leases belong to `worker` and count one attempt more than their pieces did in `s`. */
  ghost predicate NextAttempts(s: State, segs: seq<Segment>, worker: nat) {
    forall i :: 0 <= i < |segs| ==>
      segs[i].owner == worker && segs[i].attempt == PieceAt(s, segs[i].piece).attempts + 1
  }

  /** The pieces of the parts from `n` on are as they were in `s`. */
  ghost predicate AheadUnchanged(s: State, s': State, plan: seq<Part>, n: nat) {
    forall j :: n <= j < |plan| ==> PieceAt(s', plan[j].piece) == PieceAt(s, plan[j].piece)
  }

  lemma AheadStays(s0: State, s: State, s': State, plan: seq<Part>, n: nat)
    requires PlanPrefix(s0, plan, |plan|) && n < |plan| && AheadUnchanged(s0, s, plan, n)
    requires forall q :: q != plan[n].piece ==> PieceAt(s', q) == PieceAt(s, q)
    ensures AheadUnchanged(s0, s', plan, n + 1)
  {
    hide PieceAt, PlanPrefix;
    forall j | n + 1 <= j < |plan| ensures PieceAt(s', plan[j].piece) == PieceAt(s0, plan[j].piece) {
      PlanAscends(s0, plan, n, j);
    }
  }

  lemma SamePieceMapIssuable(s: State, s': State, p: nat, r: ByteRange)
    requires s'.pm == s.pm
    ensures Issuable(s', p, r) <==> Issuable(s, p, r)
  {
  }

  lemma EmptyChain(s: State, plan: seq<Part>, worker: nat)
    ensures IssueChain([s], plan, [], worker)
  {
  }

  lemma PlanPart(s: State, plan: seq<Part>, i: nat)
    requires RecoveryPlan(s, plan) && i < |plan|
    ensures Issuable(s, plan[i].piece, plan[i].Range())
  {
  }

  /** If a part is refused after its predecessors were granted, then the scheduler is
      stopped or one of its bytes was not missing to begin with. */
  lemma RefusedPart(s0: State, s: State, plan: seq<Part>, segs: seq<Segment>, i: nat)
    requires RecoveryPlan(s0, plan) && i == |segs| < |plan| && MatchesPlan(segs, plan)
    requires Granted(s0, s, segs)
    requires s.stopped || exists x: nat :: Covers(plan[i].Range(), x) && !Missing(s, x)
    ensures s0.stopped || exists x: nat :: Covers(plan[i].Range(), x) && !Missing(s0, x)
  {
    hide Missing, Issuable, GrantedLeases;
    if !s.stopped {
      var x: nat :| Covers(plan[i].Range(), x) && !Missing(s, x);
      MatchedSegmentsGapFree(s0, segs, plan);
      assert !InSegments(segs, x);
      assert !Missing(s0, x);
    }
  }

  /** Granted parts were missing and the scheduler was running. */
  lemma GrantedWereMissing(s0: State, s: State, plan: seq<Part>, segs: seq<Segment>, worker: nat, states: seq<State>)
    requires MatchesPlan(segs, plan) && Granted(s0, s, segs)
    requires IssueChain(states, plan, segs, worker) && states[0] == s0
    ensures forall i, x: nat :: 0 <= i < |segs| && Covers(plan[i].Range(), x) ==> Missing(s0, x)
    ensures segs != [] ==> !s0.stopped
  {
    hide Missing, Issuable, GrantedLeases, Inv;
    forall i, x: nat | 0 <= i < |segs| && Covers(plan[i].Range(), x) ensures Missing(s0, x) {
      assert Covers(segs[i].Range(), x);
    }
    if segs != [] {
      assert IssueLease(states[0], plan[0].piece, plan[0].Range(), worker) == (states[0 + 1], Some(segs[0]));
    }
  }

  // ----- cutting a stretch into runs

  lemma NotTouchedBetween(touched: seq<nat>, i: nat, first: nat, p: nat)
    requires i <= |touched|
    requires forall a, b :: 0 <= a < b < |touched| ==> touched[a] < touched[b]
    requires i > 0 ==> first == touched[i - 1] + 1
    requires first <= p && (i < |touched| ==> p < touched[i])
    requires i == 0 ==> forall q :: q in touched ==> first <= q
    ensures p !in touched
  {
    forall k | 0 <= k < |touched| ensures touched[k] != p {
      assert i > 0 && k < i - 1 ==> touched[k] < touched[i - 1];
    }
  }

  /** Inside a stretch of set bits the untouched pieces are those without an entry; next
      to a maximal stretch there is none. */
  lemma StretchUntouched(s: State, from: nat, to: nat, touched: seq<nat>)
    requires Inv(s) && from <= to <= |s.available|
    requires forall p :: from <= p < to ==> s.available[p]
    requires from > 0 ==> !s.available[from - 1]
    requires to < |s.available| ==> !s.available[to]
    requires forall k: nat :: k in touched <==> k in s.pieces && from <= k < to
    ensures to <= Count(s.pm.g)
    ensures forall p: nat :: from <= p < to ==> (IsUntouched(s, p) <==> p !in touched)
    ensures (from > 0 ==> !IsUntouched(s, from - 1)) && !IsUntouched(s, to)
  {
    hide Inv, Count;
    StretchIncomplete(s);
  }

  lemma StretchIncomplete(s: State)
    requires Inv(s)
    ensures |s.available| == Count(s.pm.g)
    ensures forall p: nat :: p < |s.available| && s.available[p] ==> !IsComplete(s.pm, p)
  {
  }

  /** Closing the run `[first, cut)` extends the runs of `[lo, first)` to `[lo, hi)`. */
  lemma SingleRun(s: State, cands: seq<Candidate>, lo: nat, first: nat, cut: nat, hi: nat)
    requires RunsOf(s, cands, lo, first) && lo <= first <= cut <= hi <= cut + 1 && cut <= Count(s.pm.g)
    requires forall p: nat :: first <= p < cut ==> IsUntouched(s, p)
    requires first > 0 ==> !IsUntouched(s, first - 1)
    requires !IsUntouched(s, cut)
    ensures first < cut ==>
              RunsOf(s, cands + [Candidate(Start(s.pm.g, first), End(s.pm.g, cut - 1), first, cut)], lo, hi)
    ensures first >= cut ==> RunsOf(s, cands, lo, hi)
  {
    hide IsUntouched, Start, End, Count;
    if first < cut {
      var c := Candidate(Start(s.pm.g, first), End(s.pm.g, cut - 1), first, cut);
      assert MaximalRun(s, c);
      forall p: nat | first <= p < hi && IsUntouched(s, p) ensures InRuns([c], p) {
        assert p != cut;
        assert [c][0] == c;
      }
      RunsConcat(s, cands, [c], lo, first, first, hi);
    } else {
      RunsConcat(s, cands, [], lo, first, hi, hi);
      assert cands + [] == cands;
    }
  }

  // ----- requests over whole pieces

  /** The pieces from `first` on, whole and in order. */
  ghost predicate WholeRun(g: Geometry, first: nat, segs: seq<Segment>, worker: nat) {
    forall i :: 0 <= i < |segs| ==>
      && segs[i].piece == first + i && segs[i].Range() == PieceRange(g, first + i)
      && segs[i].owner == worker && segs[i].attempt == 1
  }

  lemma WholeRunGapFree(g: Geometry, first: nat, segs: seq<Segment>, worker: nat)
    requires WholeRun(g, first, segs, worker) && first + |segs| <= Count(g)
    ensures GapFree(segs)
  {
    forall i | 0 <= i < |segs| - 1 ensures segs[i + 1].start == segs[i].end && segs[i + 1].piece == segs[i].piece + 1 {
      PiecesTile(g, first + i, first + i + 1);
      assert segs[i].Range().end == segs[i].end && segs[i + 1].Range().start == segs[i + 1].start;
    }
  }

  lemma WholeRunAppend(g: Geometry, first: nat, segs: seq<Segment>, worker: nat, next: Segment)
    requires WholeRun(g, first, segs, worker)
    requires next.piece == first + |segs| && next.Range() == PieceRange(g, next.piece)
    requires next.owner == worker && next.attempt == 1
    ensures WholeRun(g, first, segs + [next], worker)
  {
    hide PieceRange;
  }

  /** What every assigned request is: one gap-free ascending run of 1 to 64 fresh leases on
      bytes that were missing. */
  ghost predicate OneRun(s: State, s': State, segs: seq<Segment>, worker: nat) {
    && 1 <= |segs| <= MAX_REQUEST_LEASES && GapFree(segs) && Granted(s, s', segs)
    && forall i :: 0 <= i < |segs| ==> segs[i].owner == worker
  }

  function RequestBytes(segs: seq<Segment>): int
    requires segs != []
  {
    segs[|segs| - 1].end - segs[0].start
  }

  lemma SingleIsRun(s: State, s': State, seg: Segment, worker: nat)
    requires Granted(s, s', [seg]) && seg.owner == worker
    ensures OneRun(s, s', [seg], worker)
  {
    hide Granted;
  }

  /** A first lease and its extension form one request. */
  lemma BatchIsRun(s0: State, s1: State, s2: State, first: Segment, additional: seq<Segment>, worker: nat, byteCap: nat)
    requires Granted(s0, s1, [first]) && Granted(s1, s2, additional) && first.owner == worker
    requires Batch(s0.pm.g, first, additional, worker, byteCap)
    ensures OneRun(s0, s2, [first] + additional, worker)
    ensures additional != [] ==> RequestBytes([first] + additional) <= byteCap
  {
    hide Granted;
    GrantedCompose(s0, s1, s2, [first], additional);
  }

  lemma EmptyWholeRun(g: Geometry, first: nat, worker: nat)
    ensures WholeRun(g, first, [], worker)
  {
  }

  lemma RunStartsBelow(g: Geometry, c: Candidate, k: nat)
    requires IsRun(g, c) && c.firstPiece < k <= c.endPiece
    ensures c.start < End(g, k - 1)
  {
    PieceBounds(g, c.firstPiece);
    EndsGrow(g, c.firstPiece, k - 1);
  }

  lemma RunEndsGrow(g: Geometry, c: Candidate, p: nat, k: nat)
    requires IsRun(g, c) && c.firstPiece < k <= c.endPiece && p < c.endPiece
    ensures End(g, p) > End(g, k - 1) <==> p >= k
  {
    if p < k {
      EndsGrow(g, p, k - 1);
    } else {
      EndsGrow(g, k - 1, p);
    }
  }

  lemma NoRunsNoUntouched(s: State, cands: seq<Candidate>)
    requires RunsOf(s, cands, 0, Count(s.pm.g))
    ensures cands == [] <==> !exists p: nat :: IsUntouched(s, p)
  {
    if cands != [] {
      RunNonEmpty(s, cands[0]);
      assert IsUntouched(s, cands[0].firstPiece);
    }
    if p: nat :| IsUntouched(s, p) {
      assert InRuns(cands, p);
    }
  }

  lemma RunsNonEmpty(s: State, cands: seq<Candidate>)
    requires RunsOf(s, cands, 0, Count(s.pm.g))
    ensures forall i :: 0 <= i < |cands| ==> cands[i].firstPiece < cands[i].endPiece
  {
    forall i | 0 <= i < |cands| ensures cands[i].firstPiece < cands[i].endPiece {
      RunNonEmpty(s, cands[i]);
    }
  }

  lemma RunIsUntouched(s: State, c: Candidate)
    requires MaximalRun(s, c)
    ensures IsRun(s.pm.g, c)
    ensures forall p: nat :: c.firstPiece <= p < c.endPiece ==> IsUntouched(s, p)
  {
  }

  lemma MinSplitPositive(pieceSize: nat, configured: nat)
    ensures EffectiveMinSplit(pieceSize, configured) > 0
  {
  }

  /** The leases of a planned request reach from the run's start to the planned end. */
  lemma WholeRunShape(g: Geometry, c: Candidate, k: nat, segs: seq<Segment>, worker: nat)
    requires IsRun(g, c) && c.firstPiece < k <= c.endPiece
    requires WholeRun(g, c.firstPiece, segs, worker) && |segs| == k - c.firstPiece
    ensures segs[0].start == c.start && segs[|segs| - 1].end == End(g, k - 1)
    ensures GapFree(segs) && forall i :: 0 <= i < |segs| ==> segs[i].owner == worker
  {
    WholeRunGapFree(g, c.firstPiece, segs, worker);
    assert segs[0].Range().start == segs[0].start;
    assert segs[|segs| - 1].Range().end == segs[|segs| - 1].end;
  }
}
