/** Whole-run theorems about the scheduler: where every byte is, what the indexes
    say, and how lease identities die. */
module SchedulerTheorems {
  import opened Arith
  import opened Ranges
  import opened RangeLaws
  import opened PieceMaps
  import opened Leases
  import opened LeaseLaws
  import opened SchedulerModel
  import opened SchedulerLaws

  // ----- effect of the elementary transitions on bytes and leases

  lemma LeasedByPiece(s: State, key: LeaseKey, x: nat)
    requires Inv(s) && LeasedBy(s, key, x)
    ensures x < s.pm.g.totalSize && key.piece == PieceOf(s.pm.g, x) && Unacked(s, x) && !Missing(s, x)
  {
    ActiveBounds(s, key);
    PieceOfUnique(s.pm.g, x, key.piece);
  }

  /** At every moment a byte below the total is missing, or out on exactly one active
      lease, or acknowledged, and never two of these. */
  lemma BytesPartitioned(a: Audit, x: nat)
    requires AuditOk(a) && x < a.s.pm.g.totalSize
    ensures InOnePlace(a, x)
  {
    hide AuditOk, Inv, Missing, LeasedBy, Unacked;
    UnackedExact(a, x);
    forall key | LeasedBy(a.s, key, x) ensures !Missing(a.s, x) && Unacked(a.s, x) {
      AuditInv(a);
      LeasedByPiece(a.s, key, x);
    }
    MissingOrLeased(a.s, x);
    forall k1, k2 | LeasedBy(a.s, k1, x) && LeasedBy(a.s, k2, x) ensures k1 == k2 {
      AuditInv(a);
      OneLease(a.s, k1, k2, x);
    }
  }

  lemma UnackedExact(a: Audit, x: nat)
    requires AuditOk(a)
    ensures x in a.acked <==> x < a.s.pm.g.totalSize && !Unacked(a.s, x)
    ensures Inv(a.s)
  {
  }

  lemma MissingOrLeased(s: State, x: nat)
    requires x < s.pm.g.totalSize
    ensures Unacked(s, x) ==> Missing(s, x) || exists key :: LeasedBy(s, key, x)
    ensures Missing(s, x) ==> Unacked(s, x)
  {
    hide Count, Start, End, PieceOf, Has;
    var p := PieceOf(s.pm.g, x);
    if Unacked(s, x) && !Missing(s, x) {
      var id :| id in PieceAt(s, p).leases && Covers(PieceAt(s, p).leases[id], x);
      assert LeasedBy(s, LeaseKey(p, id), x);
    }
  }

  lemma OneLease(s: State, k1: LeaseKey, k2: LeaseKey, x: nat)
    requires Inv(s) && LeasedBy(s, k1, x) && LeasedBy(s, k2, x)
    ensures k1 == k2
  {
    hide Count, Start, End, PieceOf, Has, IndexesOk, Canonical, Within;
    LeasedByPiece(s, k1, x);
    LeasedByPiece(s, k2, x);
    ActiveBounds(s, k1);
    var p := k1.piece;
    assert PieceOk(s.pieces[p], Start(s.pm.g, p), End(s.pm.g, p), s.nextId);
    assert k1.lease != k2.lease ==> Disjoint(RangeOf(s, k1), RangeOf(s, k2));
  }

  /** A durable bit is set exactly when every byte of its piece is acknowledged. */
  lemma DurableBitExact(a: Audit, p: nat)
    requires AuditOk(a) && p < Count(a.s.pm.g)
    ensures IsComplete(a.s.pm, p) <==>
            forall x: nat :: Start(a.s.pm.g, p) <= x < End(a.s.pm.g, p) ==> x in a.acked
  {
    var s := a.s;
    PieceBounds(s.pm.g, p);
    forall x: nat | Start(s.pm.g, p) <= x < End(s.pm.g, p) ensures x < s.pm.g.totalSize && PieceOf(s.pm.g, x) == p {
      PieceOfUnique(s.pm.g, x, p);
    }
    if !IsComplete(s.pm, p) {
      PieceAtOk(s, p);
      var x := OutstandingByte(PieceAt(s, p), Start(s.pm.g, p), End(s.pm.g, p), s.nextId);
      assert Unacked(s, x);
    }
  }

  lemma OutstandingByte(q: PieceState, lo: nat, hi: nat, nextId: nat) returns (x: nat)
    requires PieceOk(q, lo, hi, nextId)
    ensures lo <= x < hi && Held(q, x)
  {
    if q.missing != [] {
      x := q.missing[0].start;
      assert Covers(q.missing[0], x);
    } else {
      var id :| id in q.leases;
      x := q.leases[id].start;
      assert Covers(q.leases[id], x);
    }
  }

  /** From any restored piece map and through any run: the file's bytes are the disjoint
      union of missing, leased and acknowledged bytes, and a piece's durable bit is set
      exactly when all its bytes are acknowledged. */
  lemma EveryRunConservesBytes(pm: PieceMap, ops: seq<Op>)
    requires PieceMaps.Valid(pm)
    ensures AuditOk(Start0(pm))
    ensures var a := Run(Start0(pm), ops);
            && a.s.pm.g == pm.g
            && (forall x: nat :: x < pm.g.totalSize ==> InOnePlace(a, x))
            && (forall p: nat :: p < Count(pm.g) ==>
                  (IsComplete(a.s.pm, p) <==>
                   forall x: nat :: Start(pm.g, p) <= x < End(pm.g, p) ==> x in a.acked))
  {
    hide AuditOk, Inv, InOnePlace, Count, Start, End, IsComplete;
    InitAudit(pm);
    RunKeepsAudit(Start0(pm), ops);
    var a := Run(Start0(pm), ops);
    forall x: nat | x < pm.g.totalSize ensures InOnePlace(a, x) {
      BytesPartitioned(a, x);
    }
    forall p: nat | p < Count(pm.g)
      ensures IsComplete(a.s.pm, p) <==> forall x: nat :: Start(pm.g, p) <= x < End(pm.g, p) ==> x in a.acked
    {
      DurableBitExact(a, p);
    }
  }

  // ----- running indexes

  /** The counters bound the parts subtracted from them, so no update underflows. */
  lemma CountersCover(s: State, p: nat)
    requires Inv(s) && p < Count(s.pm.g)
    ensures !IsComplete(s.pm, p) ==> |PieceAt(s, p).missing| <= s.rangeCount
    ensures p in s.pieces ==> |s.pieces[p].leases| <= s.leaseCount
    ensures s.leaseCount >= 0 && s.rangeCount >= 0
  {
    SumToBounds(LeaseCounts(s), Count(s.pm.g));
    SumToBounds(RangeCounts(s), Count(s.pm.g));
    assert RangeCounts(s)(p) <= s.rangeCount && LeaseCounts(s)(p) <= s.leaseCount;
  }

  lemma StoppedIssue(s: State, p: nat, r: ByteRange, worker: nat)
    requires s.stopped && p < |s.available|
    ensures IssueLease(s, p, r, worker) == (s, None)
  {
  }

  /** The outcome of an issue, field by field. */
  lemma IssueShape(s: State, p: nat, r: ByteRange, worker: nat, q: PieceState, rest: Option<seq<ByteRange>>)
    requires p < |s.available| && !s.stopped && q == PieceAt(s, p) && rest == Remove(q.missing, r)
    ensures rest.None? ==> IssueLease(s, p, r, worker) == (s.(pieces := s.pieces[p := q]), None)
    ensures rest.Some? ==>
              var q' := PieceState(rest.value, q.hasCompleted, q.leases[s.nextId := r], q.attempts + 1);
              var s' := s.(pieces := s.pieces[p := q'], nextId := s.nextId + 1, leaseCount := s.leaseCount + 1,
                           rangeCount := s.rangeCount - |q.missing| + |rest.value|,
                           available := s.available[p := rest.value != []]);
              IssueLease(s, p, r, worker) == (s', Some(Segment(p, s.nextId, r.start, r.end, worker, q'.attempts)))
  {
  }

  /** An availability bit is set exactly when its piece has a missing byte. */
  lemma AvailableExact(s: State, p: nat)
    requires Inv(s) && p < Count(s.pm.g)
    ensures |s.available| == Count(s.pm.g)
    ensures s.available[p] <==> exists x: nat :: PieceOf(s.pm.g, x) == p && Missing(s, x)
  {
    if s.available[p] {
      PieceAtOk(s, p);
      var r := PieceAt(s, p).missing[0];
      PieceOfUnique(s.pm.g, r.start, p);
      PieceBounds(s.pm.g, p);
      assert Covers(r, r.start);
      assert Missing(s, r.start);
    }
  }

  /** No available range is left exactly when no byte is missing. */
  lemma RangeCountZero(s: State)
    requires Inv(s)
    ensures s.rangeCount >= 0
    ensures s.rangeCount == 0 <==> forall x: nat :: !Missing(s, x)
    ensures s.rangeCount == 0 <==> forall p :: 0 <= p < Count(s.pm.g) ==> !s.available[p]
    ensures s.rangeCount == 0 <==> MissingBytes(s) == 0
    ensures MissingBytes(s) >= 0
  {
    var n := Count(s.pm.g);
    SumToZero(RangeCounts(s), n);
    SumToBounds(RangeCounts(s), n);
    forall p: nat | p < n
      ensures s.available[p] <==> RangeCounts(s)(p) != 0
      ensures MissingCounts(s)(p) >= 0 && (MissingCounts(s)(p) != 0 <==> RangeCounts(s)(p) != 0)
    {
      if !IsComplete(s.pm, p) {
        PieceAtOk(s, p);
        BytesPositive(PieceAt(s, p).missing);
      }
    }
    SumToZero(MissingCounts(s), n);
    SumToBounds(MissingCounts(s), n);
    if s.rangeCount == 0 {
      forall x: nat ensures !Missing(s, x) {
        if Missing(s, x) {
          PieceOfUnique(s.pm.g, x, PieceOf(s.pm.g, x));
          AvailableExact(s, PieceOf(s.pm.g, x));
          assert false;
        }
      }
    } else {
      var p: nat :| p < n && RangeCounts(s)(p) != 0;
      AvailableExact(s, p);
    }
  }

  /** Through any run the running indexes equal their recomputation. */
  lemma EveryRunIndexesAgree(pm: PieceMap, ops: seq<Op>)
    requires PieceMaps.Valid(pm)
    ensures AuditOk(Start0(pm))
    ensures var s := Run(Start0(pm), ops).s;
            && s.pm.g == pm.g
            && s.leaseCount == SumTo(LeaseCounts(s), Count(pm.g)) >= 0
            && s.rangeCount == SumTo(RangeCounts(s), Count(pm.g)) >= 0
            && |s.available| == Count(pm.g)
            && (forall p: nat :: p < Count(pm.g) ==>
                  (s.available[p] <==> exists x: nat :: PieceOf(pm.g, x) == p && Missing(s, x)))
            && s.pm.completedBytes == SumTo(DoneBytes(pm.g, s.pm.completed), Count(pm.g))
  {
    hide Missing, PieceOf, Count, PiecesOk, IsComplete;
    InitAudit(pm);
    RunKeepsAudit(Start0(pm), ops);
    var s := Run(Start0(pm), ops).s;
    RangeCountZero(s);
    SumToBounds(LeaseCounts(s), Count(pm.g));
    forall p: nat | p < Count(pm.g)
      ensures s.available[p] <==> exists x: nat :: PieceOf(pm.g, x) == p && Missing(s, x)
    {
      AvailableExact(s, p);
    }
  }

  // ----- issuing

  /** A lease is granted exactly when the scheduler runs and every requested byte is missing. */
  lemma IssueEffect(s: State, p: nat, r: ByteRange, worker: nat) returns (s': State, seg: Option<Segment>)
    requires Inv(s) && Issuable(s, p, r)
    ensures p < |s.available| && (s', seg) == IssueLease(s, p, r, worker)
    ensures Inv(s')
    ensures seg.Some? <==> !s.stopped && forall x: nat :: Covers(r, x) ==> Missing(s, x)
    ensures seg.Some? ==>
              && seg.value.piece == p && seg.value.Range() == r && seg.value.owner == worker
              && seg.value.attempt == PieceAt(s, p).attempts + 1
              && Granted(s, s', [seg.value])
    ensures seg.None? ==> SameWork(s, s')
    ensures forall q :: q != p ==> PieceAt(s', q) == PieceAt(s, q)
  {
    hide Count, PieceOf, Start, End, PieceOk, PiecesOk, IndexesOk, Unacked, Has, Held, Remove, PieceMaps.Valid,
         Granted, Missing;
    PieceAtOk(s, p);
    var q := PieceAt(s, p);
    var result := IssueLease(s, p, r, worker);
    s', seg := result.0, result.1;
    IssueKeepsInv(s, p, r, worker);
    IssueInOk(q, r, Start(s.pm.g, p), End(s.pm.g, p), s.nextId);
    MissingInPiece(s, p, r);
    if seg.Some? {
      IssueInEffect(q, r, Start(s.pm.g, p), End(s.pm.g, p), s.nextId);
      IssueGrants(s, s', p, r, worker, seg.value);
    }
  }

  lemma IssueKeepsInv(s: State, p: nat, r: ByteRange, worker: nat)
    requires Inv(s) && Issuable(s, p, r)
    ensures p < |s.available| && Inv(IssueLease(s, p, r, worker).0)
  {
    hide Inv, Count, PieceOf, Unacked;
    var acked := set x: nat | x < s.pm.g.totalSize && !Unacked(s, x);
    IssueKeepsAudit(Audit(s, acked), p, r, worker);
    PieceAtOk(s, p);
  }

  /** Within a piece, "missing" is membership in that piece's range set. */
  lemma MissingInPiece(s: State, p: nat, r: ByteRange)
    requires Issuable(s, p, r)
    ensures forall x: nat :: Covers(r, x) ==> (Missing(s, x) <==> Has(PieceAt(s, p).missing, x))
    ensures forall x: nat :: Covers(r, x) ==> PieceOf(s.pm.g, x) == p
  {
    forall x: nat | Covers(r, x) ensures PieceOf(s.pm.g, x) == p && x < s.pm.g.totalSize {
      PieceOfUnique(s.pm.g, x, p);
    }
  }

  lemma IssueGrants(s: State, s': State, p: nat, r: ByteRange, worker: nat, seg: Segment)
    requires Inv(s) && Issuable(s, p, r) && p < |s.available|
    requires IssueLease(s, p, r, worker) == (s', Some(seg))
    requires var q, q' := PieceAt(s, p), s'.pieces[p];
             && Touched(s, s', p, q')
             && (forall x :: Has(q'.missing, x) <==> Has(q.missing, x) && !Covers(r, x))
             && Bytes(q'.missing) == Bytes(q.missing) - (r.end - r.start)
    requires forall x: nat :: Covers(r, x) ==> Missing(s, x) && PieceOf(s.pm.g, x) == p
    ensures Granted(s, s', [seg])
  {
    hide Inv, GrantedBytes, GrantedLeases, Missing, Count, Has, Remove;
    GrantsBytes(s, s', p, seg);
    FreshId(s, p);
    GrantsLeases(s, s', p, seg);
  }

  lemma GrantsBytes(s: State, s': State, p: nat, seg: Segment)
    requires p in s'.pieces && Touched(s, s', p, s'.pieces[p])
    requires forall x :: Has(s'.pieces[p].missing, x) <==> Has(PieceAt(s, p).missing, x) && !Covers(seg.Range(), x)
    requires Bytes(s'.pieces[p].missing) == Bytes(PieceAt(s, p).missing) - (seg.end - seg.start)
    requires forall x: nat :: Covers(seg.Range(), x) ==> Missing(s, x) && PieceOf(s.pm.g, x) == p
    ensures GrantedBytes(s, s', [seg])
  {
    hide Count, PieceOf, Start, End, PieceOk, Has;
    assert MissingBytes(s') == MissingBytes(s) - SegmentBytes([seg]) by {
      TouchMovesSums(s, s', p, s'.pieces[p]);
    }
    InOne(seg);
    forall x: nat ensures Missing(s', x) <==> Missing(s, x) && !InSegments([seg], x) {
      assert PieceOf(s.pm.g, x) != p ==> (Missing(s', x) <==> Missing(s, x));
    }
  }

  lemma InOne(seg: Segment)
    ensures forall x :: InSegments([seg], x) <==> Covers(seg.Range(), x)
    ensures forall key :: KeyIn([seg], key) <==> key == seg.Key()
    ensures SegmentBytes([seg]) == seg.end - seg.start
  {
    assert [seg][0] == seg;
  }

  lemma GrantsLeases(s: State, s': State, p: nat, seg: Segment)
    requires seg.piece == p && seg.lease == s.nextId < s'.nextId && seg.start < seg.end
    requires p in s'.pieces && s'.pieces == s.pieces[p := s'.pieces[p]]
    requires s'.pieces[p].leases == PieceAt(s, p).leases[seg.lease := seg.Range()]
    requires p in s.pieces ==> s.nextId !in s.pieces[p].leases
    ensures GrantedLeases(s, s', [seg])
  {
    InOne(seg);
  }

  lemma FreshId(s: State, p: nat)
    requires Inv(s)
    ensures p in s.pieces ==> s.nextId !in s.pieces[p].leases
  {
  }

  /** Two grants in a row are one grant of both batches. */
  lemma GrantedCompose(s0: State, s1: State, s2: State, a: seq<Segment>, b: seq<Segment>)
    requires Granted(s0, s1, a) && Granted(s1, s2, b)
    ensures Granted(s0, s2, a + b)
  {
    hide Missing, Active, RangeOf;
    SegmentsConcat(a, b);
    GrantedLeasesCompose(s0, s1, s2, a, b);
  }

  lemma GrantedLeasesCompose(s0: State, s1: State, s2: State, a: seq<Segment>, b: seq<Segment>)
    requires s0.nextId <= s1.nextId <= s2.nextId
    requires GrantedLeases(s0, s1, a) && GrantedLeases(s1, s2, b)
    ensures GrantedLeases(s0, s2, a + b)
  {
    hide Active, RangeOf;
    SegmentsConcat(a, b);
    var segs := a + b;
    forall i | 0 <= i < |segs|
      ensures s0.nextId <= segs[i].lease < s2.nextId && segs[i].start < segs[i].end
      ensures Active(s2, segs[i].Key()) && RangeOf(s2, segs[i].Key()) == segs[i].Range()
    {
      if i < |a| {
        assert segs[i] == a[i];
      } else {
        assert segs[i] == b[i - |a|];
      }
    }
  }

  lemma SegmentsConcat(a: seq<Segment>, b: seq<Segment>)
    ensures forall x :: InSegments(a + b, x) <==> InSegments(a, x) || InSegments(b, x)
    ensures forall key :: KeyIn(a + b, key) <==> KeyIn(a, key) || KeyIn(b, key)
    ensures SegmentBytes(a + b) == SegmentBytes(a) + SegmentBytes(b)
  {
    forall i | 0 <= i < |b| ensures (a + b)[|a| + i] == b[i] {
    }
    forall x ensures InSegments(a + b, x) <==> InSegments(a, x) || InSegments(b, x) {
      if i :| 0 <= i < |a| && Covers(a[i].Range(), x) {
        assert Covers((a + b)[i].Range(), x);
      }
      if i :| 0 <= i < |b| && Covers(b[i].Range(), x) {
        assert Covers((a + b)[|a| + i].Range(), x);
      }
    }
    forall key ensures KeyIn(a + b, key) <==> KeyIn(a, key) || KeyIn(b, key) {
      if i :| 0 <= i < |a| && a[i].Key() == key {
        assert (a + b)[i].Key() == key;
      }
      if i :| 0 <= i < |b| && b[i].Key() == key {
        assert (a + b)[|a| + i].Key() == key;
      }
    }
    SegmentBytesConcat(a, b);
  }

  lemma {:induction false} SegmentBytesConcat(a: seq<Segment>, b: seq<Segment>)
    ensures SegmentBytes(a + b) == SegmentBytes(a) + SegmentBytes(b)
  {
    if a == [] {
      assert a + b == b;
    } else {
      assert (a + b)[1..] == a[1..] + b;
      SegmentBytesConcat(a[1..], b);
    }
  }

  // ----- lease identities

  /** The identity was handed out earlier and its lease is over. */
  predicate Dead(s: State, key: LeaseKey) {
    key.lease < s.nextId && !Active(s, key)
  }

  lemma StepKeepsDead(s: State, op: Op, key: LeaseKey)
    requires Inv(s) && Dead(s, key)
    ensures Dead(Step(s, op), key)
  {
    hide Count, PieceOf, PieceOk, IndexesOk, PieceMaps.Valid, Remove, Insert;
    if op.Issue? && Issuable(s, op.piece, op.range) {
      PieceAtOk(s, op.piece);
    }
  }

  /** Every operation on a dead identity is refused and changes nothing. */
  lemma DeadKeyIsRefused(s: State, key: LeaseKey, worker: nat, confirmed: nat)
    requires Inv(s) && Dead(s, key)
    ensures RenewLease(s, key, worker) == (s, None)
    ensures RetainPrefix(s, key, confirmed) == (s, false)
    ensures CompleteLease(s, key) == (s, false)
    ensures ReclaimLease(s, key) == (s, false)
  {
  }

  /** Renewing, completing or reclaiming a lease kills its identity. */
  lemma EndedKeyIsDead(s: State, op: Op, key: LeaseKey)
    requires Inv(s) && Active(s, key)
    requires op == Complete(key) || op == Reclaim(key) || exists w :: op == Renew(key, w)
    ensures Dead(Step(s, op), key)
  {
    hide Count, PieceOf, PieceOk, IndexesOk, Remove, Insert;
    ActiveBounds(s, key);
    PieceAtOk(s, key.piece);
  }

  lemma {:induction false} RunKeepsDead(a: Audit, ops: seq<Op>, key: LeaseKey)
    requires AuditOk(a) && Dead(a.s, key)
    ensures AuditOk(Run(a, ops)) && Dead(Run(a, ops).s, key)
    decreases |ops|
  {
    hide Inv, Unacked, Step, Dead;
    RunKeepsAudit(a, ops);
    if ops != [] {
      StepKeepsAudit(a, ops[0]);
      StepKeepsDead(a.s, ops[0], key);
      RunKeepsDead(Next(a, ops[0]), ops[1..], key);
    }
  }

  /** Once a lease is renewed, completed or reclaimed, its identity stays dead through
      any later run: every operation that names it fails and changes nothing. */
  lemma StaleIdentityStaysDead(a: Audit, op: Op, key: LeaseKey, later: seq<Op>, worker: nat, confirmed: nat)
    requires AuditOk(a) && Active(a.s, key)
    requires op == Complete(key) || op == Reclaim(key) || exists w :: op == Renew(key, w)
    ensures AuditOk(Next(a, op))
    ensures var s := Run(Next(a, op), later).s;
            && Inv(s) && !Active(s, key)
            && RenewLease(s, key, worker) == (s, None)
            && RetainPrefix(s, key, confirmed) == (s, false)
            && CompleteLease(s, key) == (s, false)
            && ReclaimLease(s, key) == (s, false)
  {
    hide Inv, Unacked, Step;
    StepKeepsAudit(a, op);
    EndedKeyIsDead(a.s, op, key);
    RunKeepsDead(Next(a, op), later, key);
    DeadKeyIsRefused(Run(Next(a, op), later).s, key, worker, confirmed);
  }

  // ----- stopping

  lemma StoppedStepKeepsMissing(s: State, op: Op)
    requires Inv(s) && s.stopped
    ensures Step(s, op).stopped
    ensures forall x: nat :: Missing(s, x) ==> Missing(Step(s, op), x)
  {
    hide Count, PieceOf, PieceOk, IndexesOk, PieceMaps.Valid, Remove, Insert, Has;
    match op {
      case Reclaim(key) =>
        if Active(s, key) {
          ActiveBounds(s, key);
          PieceAtOk(s, key.piece);
          ReclaimInOk(s.pieces[key.piece], key.lease, Start(s.pm.g, key.piece), End(s.pm.g, key.piece), s.nextId);
        }
      case Complete(key) =>
        if Active(s, key) {
          ActiveBounds(s, key);
          CompleteKeepsMissing(s, key);
        }
      case _ =>
    }
  }

  /** Completing a lease never changes which bytes are missing. */
  lemma CompleteKeepsMissing(s: State, key: LeaseKey)
    requires Inv(s) && Active(s, key)
    ensures forall x: nat :: Missing(CompleteLease(s, key).0, x) <==> Missing(s, x)
  {
    hide Count, PieceOf, PieceOk, IndexesOk;
    ActiveBounds(s, key);
    var s' := CompleteLease(s, key).0;
    forall x: nat ensures Missing(s', x) <==> Missing(s, x) {
      if PieceOf(s.pm.g, x) == key.piece && IsComplete(s'.pm, key.piece) {
        assert !Has(s.pieces[key.piece].missing, x);
      }
    }
  }

  /** After a stop, whatever is or becomes missing stays missing for the rest of the run. */
  lemma {:induction false} StoppedMissingNeverShrinks(a: Audit, ops: seq<Op>)
    requires AuditOk(a) && a.s.stopped
    ensures Run(a, ops).s.stopped
    ensures forall x: nat :: Missing(a.s, x) ==> Missing(Run(a, ops).s, x)
    decreases |ops|
  {
    hide Inv, Unacked, Step, Missing;
    if ops != [] {
      StepKeepsAudit(a, ops[0]);
      StoppedStepKeepsMissing(a.s, ops[0]);
      StoppedMissingNeverShrinks(Next(a, ops[0]), ops[1..]);
    }
  }
}
