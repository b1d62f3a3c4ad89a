/** What one assigned HTTP request is, for each way of choosing it
    (`RequestAssignment` in `src/scheduler.rs`). */
module Requests {
  import opened Arith
  import opened Ranges
  import opened PieceMaps
  import opened Leases
  import opened Planner
  import opened SchedulerModel
  import opened RequestLaws

  datatype Mode = Fixed | Dynamic

  /** The leases of one HTTP request. */
  datatype RequestAssignment = RequestAssignment(segments: seq<Segment>, targetEnd: nat, reason: Reason)

  /** The assignment is what the planner computes for the run `c` with `slots` slots. */
  ghost predicate PlannedOn(g: Geometry, c: Candidate, slots: nat, minSplit: nat, maxRequest: nat, a: RequestAssignment)
  {
    var desired := ShareEndPiece(g, c, slots, minSplit);
    && desired > 0 && EndPiece(g, c, desired, minSplit, maxRequest).0 > 0 && a.segments != []
    && a.segments[0].start == c.start && a.targetEnd == End(g, desired - 1)
    && (a.segments[|a.segments| - 1].end, a.reason) == RequestEnd(g, c, desired, minSplit, maxRequest)
  }

  /** The request is the whole first missing range of the next piece that has one. */
  ghost predicate NextRange(s: State, a: RequestAssignment) {
    && |a.segments| == 1 && a.reason == Single && a.targetEnd == a.segments[0].end
    && IsNextAvailable(s.available, s.cursor, a.segments[0].piece)
    && PieceAt(s, a.segments[0].piece).missing != []
    && a.segments[0].Range() == PieceAt(s, a.segments[0].piece).missing[0]
  }

  /** The slot plan over `cands`, all maximal runs of untouched pieces, chose one of them, and
      the request is whole pieces of that run up to the planned end. */
  ghost predicate PlannedRequest(s: State, slots: nat, minSplit: nat, maxRequest: nat, worker: nat,
                                 a: RequestAssignment, cands: seq<Candidate>, counts: seq<nat>, chosen: nat)
  {
    && slots > 0 && RunsOf(s, cands, 0, Count(s.pm.g))
    && (forall i :: 0 <= i < |cands| ==> cands[i].firstPiece < cands[i].endPiece)
    && PlanOk(s.pm.g, cands, slots, minSplit, counts, chosen)
    && PlannedOn(s.pm.g, cands[chosen], counts[chosen], minSplit, maxRequest, a)
    && WholeRun(s.pm.g, cands[chosen].firstPiece, a.segments, worker)
  }

  /** A dynamic request: planned while any piece is untouched, else the next missing range. */
  ghost predicate DynamicRequest(s: State, slots: nat, minSplitConfigured: nat, maxRequest: nat, worker: nat,
                                 a: RequestAssignment)
  {
    if exists p: nat :: IsUntouched(s, p) then
      exists cands, counts, chosen ::
        PlannedRequest(s, slots, EffectiveMinSplit(s.pm.g.pieceSize, minSplitConfigured), maxRequest, worker, a,
                       cands, counts, chosen)
    else NextRange(s, a)
  }

  /** A fixed-mode request, from `s` to `s'`: the split rule's part of the next missing range,
      extended on a piece's first attempt by whole pieces until `BatchStops` holds. */
  ghost predicate FixedRequest(s: State, s': State, slots: nat, minSegment: nat, batchSize: nat, reserved: nat,
                               worker: nat, a: RequestAssignment)
  {
    && a.segments != []
    && var first, rest := a.segments[0], a.segments[1..];
       && IsNextAvailable(s.available, s.cursor, first.piece)
       && s.leaseCount >= 0 && SplitOf(s, first.piece, s.leaseCount + slots, minSegment, first.Range())
       && first.attempt == PieceAt(s, first.piece).attempts + 1
       && Batch(s.pm.g, first, rest, worker, batchSize)
       && CursorBehind(s', first.piece + |rest|)
       && if first.attempt == 1 then BatchStops(s', first, |rest|, worker, batchSize, reserved, a.reason)
          else rest == [] && a.reason == RecoveredOrRetried
  }

  /** The reported target: the end of the untouched run behind a first attempt on a whole
      piece that a batch could follow, if diagnostics ask for it, else the first lease's end. */
  ghost predicate FixedTarget(s: State, batchSize: nat, collectDiagnostics: bool, a: RequestAssignment) {
    && a.segments != []
    && var first := a.segments[0];
       if && collectDiagnostics && first.attempt == 1 && batchSize > first.end - first.start
          && first.Range() == PieceRange(s.pm.g, first.piece) && !PieceAt(s, first.piece).hasCompleted
       then exists k: nat :: FreshRun(s, first.piece, k) && a.targetEnd == End(s.pm.g, k - 1)
       else a.targetEnd == first.end
  }

  /** The lease owns its whole piece, on which nothing else happened. */
  predicate FreshWholeLease(g: Geometry, pieces: map<nat, PieceState>, seg: Segment) {
    && PieceRange(g, seg.piece) == seg.Range()
    && seg.piece in pieces
    && var q := pieces[seg.piece];
       |q.leases| == 1 && !q.hasCompleted && seg.lease in q.leases && q.leases[seg.lease] == seg.Range()
       && q.missing == []
  }

  /** From `s` to `s'`, a prefix of a piece's first missing range was leased as `seg`. */
  ghost predicate PrefixLeased(s: State, s': State, seg: Segment) {
    && Granted(s, s', [seg]) && s'.rangeCount >= s.rangeCount - 1
    && seg.attempt == PieceAt(s, seg.piece).attempts + 1 && CursorBehind(s', seg.piece)
    && (forall q: nat :: q != seg.piece ==> (IsUntouched(s', q) <==> IsUntouched(s, q)))
    && (FreshWholeLease(s.pm.g, s'.pieces, seg) <==>
        seg.Range() == PieceRange(s.pm.g, seg.piece) && !PieceAt(s, seg.piece).hasCompleted)
  }

  lemma PrefixIssued(s: State, p: nat, r: ByteRange, worker: nat) returns (s': State, seg: Option<Segment>)
    requires Inv(s) && p < Count(s.pm.g) && !IsComplete(s.pm, p) && PieceAt(s, p).missing != []
    requires r.start == PieceAt(s, p).missing[0].start < r.end <= PieceAt(s, p).missing[0].end
    ensures Issuable(s, p, r)
    ensures p < |s.available| && (s', seg) == IssueLease(s, p, r, worker)
    ensures seg.Some? <==> !s.stopped
    ensures seg.None? ==> s' == s
    ensures (p + 1) % Count(s.pm.g) < Count(s.pm.g)
    ensures seg.Some? ==>
              && s'.pm == s.pm && s'.stopped == s.stopped
              && seg.value.piece == p && seg.value.Range() == r && seg.value.owner == worker
              && PrefixLeased(s, s'.(cursor := (p + 1) % Count(s.pm.g)), seg.value)
  {
    hide Inv, Granted, Count, IssueLease, Start, End, CursorBehind, Issuable;
    s', seg := IssuePrefix(s, p, r, worker);
    AdvanceCursor(s, p);
    if seg.Some? {
      if r == PieceRange(s.pm.g, p) {
        WholeGrant(s, p, worker, s', seg.value);
      }
      GrantedFrame(s, s', [seg.value]);
      AdvanceCursor(s', p);
      SeekKeepsGrant(s, s', (p + 1) % Count(s.pm.g), [seg.value]);
    }
  }

  /** A lease on a piece tried before makes a request of its own. */
  lemma RetriedRequest(s: State, s': State, slots: nat, minSegment: nat, batchSize: nat, reserved: nat, worker: nat,
                       first: Segment, targetEnd: nat)
    requires IsNextAvailable(s.available, s.cursor, first.piece) && s.leaseCount >= 0
    requires SplitOf(s, first.piece, s.leaseCount + slots, minSegment, first.Range())
    requires first.attempt == PieceAt(s, first.piece).attempts + 1 && first.attempt != 1
    requires CursorBehind(s', first.piece)
    ensures FixedRequest(s, s', slots, minSegment, batchSize, reserved, worker,
                         RequestAssignment([first], targetEnd, RecoveredOrRetried))
  {
    hide IsNextAvailable, SplitOf, PieceAt, CursorBehind, BatchStops, Batch;
    BatchEmpty(s.pm.g, first, worker, batchSize);
    assert [first][1..] == [];
  }

  lemma BatchRequest(s: State, s': State, slots: nat, minSegment: nat, batchSize: nat, reserved: nat, worker: nat,
                     first: Segment, rest: seq<Segment>, a: RequestAssignment)
    requires IsNextAvailable(s.available, s.cursor, first.piece) && s.leaseCount >= 0
    requires SplitOf(s, first.piece, s.leaseCount + slots, minSegment, first.Range())
    requires first.attempt == PieceAt(s, first.piece).attempts + 1 == 1
    requires Batch(s.pm.g, first, rest, worker, batchSize) && a.segments == [first] + rest
    requires BatchStops(s', first, |rest|, worker, batchSize, reserved, a.reason)
    requires CursorBehind(s', first.piece + |rest|)
    ensures FixedRequest(s, s', slots, minSegment, batchSize, reserved, worker, a)
  {
    hide IsNextAvailable, SplitOf, PieceAt, CursorBehind, BatchStops, Batch;
    assert a.segments[1..] == rest;
  }
}
