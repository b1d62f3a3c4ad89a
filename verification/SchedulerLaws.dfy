/** What the elementary transitions of the scheduler keep, on every run. */
module SchedulerLaws {
  import opened Arith
  import opened Ranges
  import opened RangeLaws
  import opened PieceMaps
  import opened Leases
  import opened LeaseLaws
  import opened SchedulerModel

  // ----- one touched piece

  ghost predicate Touched(s: State, s': State, p: nat, q: PieceState) {
    && p < Count(s.pm.g) && !IsComplete(s.pm, p)
    && s'.pm == s.pm && s'.pieces == s.pieces[p := q]
  }

  lemma TouchMovesSums(s: State, s': State, p: nat, q: PieceState)
    requires Touched(s, s', p, q)
    ensures SumTo(LeaseCounts(s'), Count(s.pm.g))
         == SumTo(LeaseCounts(s), Count(s.pm.g)) - LeaseCounts(s)(p) + |q.leases|
    ensures SumTo(RangeCounts(s'), Count(s.pm.g))
         == SumTo(RangeCounts(s), Count(s.pm.g)) - |PieceAt(s, p).missing| + |q.missing|
    ensures MissingBytes(s') == MissingBytes(s) - Bytes(PieceAt(s, p).missing) + Bytes(q.missing)
  {
    hide Count, PieceOf, Start, End, PieceOk;
    var n := Count(s.pm.g);
    SumToUpdate(LeaseCounts(s), LeaseCounts(s'), p, n);
    SumToUpdate(RangeCounts(s), RangeCounts(s'), p, n);
    SumToUpdate(MissingCounts(s), MissingCounts(s'), p, n);
  }

  lemma TouchKeepsPieces(s: State, s': State, p: nat, q: PieceState)
    requires PiecesOk(s) && Touched(s, s', p, q) && s.nextId <= s'.nextId
    requires PieceOk(q, Start(s.pm.g, p), End(s.pm.g, p), s'.nextId)
    ensures PiecesOk(s')
  {
    hide Count, PieceOf, Start, End, PieceOk;
    forall k | k in s'.pieces && k != p
      ensures PieceOk(s'.pieces[k], Start(s.pm.g, k), End(s.pm.g, k), s'.nextId)
    {
      PieceOkGrows(s.pieces[k], Start(s.pm.g, k), End(s.pm.g, k), s.nextId, s'.nextId);
    }
  }

  lemma TouchKeepsIndexes(s: State, s': State, p: nat, q: PieceState)
    requires IndexesOk(s) && Touched(s, s', p, q)
    requires s'.available == s.available[p := q.missing != []]
    requires s'.leaseCount == s.leaseCount - LeaseCounts(s)(p) + |q.leases|
    requires s'.rangeCount == s.rangeCount - |PieceAt(s, p).missing| + |q.missing|
    requires s'.cursor < Max(Count(s.pm.g), 1)
    ensures IndexesOk(s')
  {
    hide Count, PieceOf, Start, End, PieceOk;
    TouchMovesSums(s, s', p, q);
  }

  /** Replacing the state of one incomplete piece, with its indexes, keeps everything. */
  lemma TouchKeepsInv(s: State, s': State, p: nat, q: PieceState)
    requires Inv(s) && Touched(s, s', p, q) && s.nextId <= s'.nextId
    requires PieceOk(q, Start(s.pm.g, p), End(s.pm.g, p), s'.nextId)
    requires s'.available == s.available[p := q.missing != []]
    requires s'.leaseCount == s.leaseCount - LeaseCounts(s)(p) + |q.leases|
    requires s'.rangeCount == s.rangeCount - |PieceAt(s, p).missing| + |q.missing|
    requires s'.cursor < Max(Count(s.pm.g), 1)
    ensures Inv(s')
  {
    hide Count, PieceOf, Start, End, PieceOk;
    TouchKeepsPieces(s, s', p, q);
    TouchKeepsIndexes(s, s', p, q);
  }

  lemma PieceOkGrows(q: PieceState, lo: nat, hi: nat, a: nat, b: nat)
    requires PieceOk(q, lo, hi, a) && a <= b
    ensures PieceOk(q, lo, hi, b)
  {
  }

  lemma InvShape(s: State)
    requires Inv(s)
    ensures |s.pm.completed| == |s.available| == Count(s.pm.g) && s.pm.nextCandidate <= Count(s.pm.g)
  {
  }

  lemma AuditInv(a: Audit)
    requires AuditOk(a)
    ensures Inv(a.s)
    ensures |a.s.pm.completed| == |a.s.available| == Count(a.s.pm.g) && a.s.pm.nextCandidate <= Count(a.s.pm.g)
  {
  }

  lemma PieceAtOk(s: State, p: nat)
    requires Inv(s) && p < Count(s.pm.g) && !IsComplete(s.pm, p)
    ensures PieceOk(PieceAt(s, p), Start(s.pm.g, p), End(s.pm.g, p), s.nextId)
    ensures LeaseCounts(s)(p) == |PieceAt(s, p).leases|
    ensures |s.pm.completed| == |s.available| == Count(s.pm.g)
    ensures s.cursor < Count(s.pm.g) && s.pm.nextCandidate <= Count(s.pm.g)
    ensures s.available[p] <==> PieceAt(s, p).missing != []
  {
    PieceBounds(s.pm.g, p);
    if p !in s.pieces {
      NewPieceOk(Start(s.pm.g, p), End(s.pm.g, p), s.nextId);
    }
  }

  lemma ActiveBounds(s: State, key: LeaseKey)
    requires Inv(s) && Active(s, key)
    ensures key.piece < Count(s.pm.g) && !IsComplete(s.pm, key.piece) && key.lease < s.nextId
    ensures Start(s.pm.g, key.piece) <= RangeOf(s, key).start < RangeOf(s, key).end <= End(s.pm.g, key.piece)
  {
  }

  // ----- every elementary transition keeps the books

  /** Acknowledged bytes after one piece lost exactly the held bytes `gone`. */
  lemma TouchKeepsAudit(a: Audit, s': State, p: nat, q: PieceState, gone: set<nat>)
    requires AuditOk(a) && Touched(a.s, s', p, q) && Inv(s')
    requires forall x: nat :: Held(q, x) <==> Held(PieceAt(a.s, p), x) && x !in gone
    requires forall x :: x in gone ==> Start(a.s.pm.g, p) <= x < End(a.s.pm.g, p)
    ensures AuditOk(Audit(s', a.acked + gone))
  {
    hide Count, PieceOf, Start, End, PieceOk, PiecesOk, IndexesOk, Has;
    var g := a.s.pm.g;
    forall x: nat ensures x in a.acked + gone <==> x < g.totalSize && !Unacked(s', x) {
      PieceOfUnique(g, x, p);
      assert PieceOf(g, x) != p ==> (Unacked(s', x) <==> Unacked(a.s, x));
    }
  }

  lemma IssueKeepsAudit(a: Audit, p: nat, r: ByteRange, worker: nat)
    requires AuditOk(a) && Issuable(a.s, p, r)
    ensures AuditOk(Audit(IssueLease(a.s, p, r, worker).0, a.acked))
  {
    hide Count, PieceOf, Start, End, PieceOk, PiecesOk, IndexesOk, Unacked, Has, Held, Remove, Insert, PieceMaps.Valid;
    var s := a.s;
    PieceAtOk(s, p);
    var s' := IssueLease(s, p, r, worker).0;
    if !s.stopped {
      var q := PieceAt(s, p);
      IssueInOk(q, r, Start(s.pm.g, p), End(s.pm.g, p), s.nextId);
      var q' := s'.pieces[p];
      if IssueIn(q, r, s.nextId).Some? {
        IssueInEffect(q, r, Start(s.pm.g, p), End(s.pm.g, p), s.nextId);
      }
      assert s'.available == s.available[p := q'.missing != []];
      TouchKeepsInv(s, s', p, q');
      TouchKeepsAudit(a, s', p, q', {});
      assert a.acked + {} == a.acked;
    }
  }

  lemma RenewKeepsAudit(a: Audit, key: LeaseKey, worker: nat)
    requires AuditOk(a) && Active(a.s, key)
    ensures AuditOk(Audit(RenewLease(a.s, key, worker).0, a.acked))
  {
    hide Count, PieceOf, Start, End, PieceOk, PiecesOk, IndexesOk, Unacked, Has, Held, Remove, Insert, PieceMaps.Valid;
    var s, p := a.s, key.piece;
    ActiveBounds(s, key);
    PieceAtOk(s, p);
    var s' := RenewLease(s, key, worker).0;
    RenewInOk(s.pieces[p], key.lease, Start(s.pm.g, p), End(s.pm.g, p), s.nextId);
    assert s'.available == s.available[p := s'.pieces[p].missing != []];
    TouchKeepsInv(s, s', p, s'.pieces[p]);
    TouchKeepsAudit(a, s', p, s'.pieces[p], {});
    assert a.acked + {} == a.acked;
  }

  lemma RetainKeepsAudit(a: Audit, key: LeaseKey, confirmed: nat)
    requires AuditOk(a) && Retainable(a.s, key, confirmed)
    ensures AuditOk(Audit(RetainPrefix(a.s, key, confirmed).0, a.acked + AckedBy(a.s, Retain(key, confirmed))))
  {
    hide Count, PieceOf, Start, End, PieceOk, PiecesOk, IndexesOk, Unacked, Has, Held, Remove, Insert, PieceMaps.Valid;
    var s, p := a.s, key.piece;
    ActiveBounds(s, key);
    PieceAtOk(s, p);
    var s' := RetainPrefix(s, key, confirmed).0;
    RetainInOk(s.pieces[p], key.lease, confirmed, Start(s.pm.g, p), End(s.pm.g, p), s.nextId);
    assert s'.available == s.available[p := s'.pieces[p].missing != []];
    assert |s'.pieces[p].leases| == |s'.pieces[p].leases.Keys| == |s.pieces[p].leases.Keys| == |s.pieces[p].leases|;
    TouchKeepsInv(s, s', p, s'.pieces[p]);
    TouchKeepsAudit(a, s', p, s'.pieces[p], AckedBy(s, Retain(key, confirmed)));
  }

  lemma ReclaimKeepsAudit(a: Audit, key: LeaseKey)
    requires AuditOk(a) && Active(a.s, key)
    ensures AuditOk(Audit(ReclaimLease(a.s, key).0, a.acked))
  {
    hide Count, PieceOf, Start, End, PieceOk, PiecesOk, IndexesOk, Unacked, Has, Held, Remove, Insert, PieceMaps.Valid;
    var s, p := a.s, key.piece;
    ActiveBounds(s, key);
    PieceAtOk(s, p);
    var s' := ReclaimLease(s, key).0;
    ReclaimInOk(s.pieces[p], key.lease, Start(s.pm.g, p), End(s.pm.g, p), s.nextId);
    TouchKeepsInv(s, s', p, s'.pieces[p]);
    TouchKeepsAudit(a, s', p, s'.pieces[p], {});
    assert a.acked + {} == a.acked;
  }

  lemma CompleteKeepsAudit(a: Audit, key: LeaseKey)
    requires AuditOk(a) && Active(a.s, key)
    ensures AuditOk(Audit(CompleteLease(a.s, key).0, a.acked + AckedBy(a.s, Complete(key))))
  {
    hide Count, AuditOk, Inv, CompleteLease, AckedBy;
    AuditInv(a);
    if Finishes(a.s, key) {
      LastCompleteKeepsAudit(a, key);
    } else {
      PartCompleteKeepsAudit(a, key);
    }
  }

  lemma PartCompleteKeepsAudit(a: Audit, key: LeaseKey)
    requires AuditOk(a) && Active(a.s, key) && !Finishes(a.s, key)
    ensures AuditOk(Audit(CompleteLease(a.s, key).0, a.acked + AckedBy(a.s, Complete(key))))
  {
    hide Count, PieceOf, Start, End, PieceOk, PiecesOk, IndexesOk, Unacked, Has, Held, PieceMaps.Valid;
    var s, p := a.s, key.piece;
    ActiveBounds(s, key);
    PieceAtOk(s, p);
    CompleteInHeld(s.pieces[p], key.lease, Start(s.pm.g, p), End(s.pm.g, p), s.nextId);
    var s', q' := CompleteLease(s, key).0, CompleteIn(s.pieces[p], key.lease);
    assert s'.available == s.available[p := q'.missing != []];
    TouchKeepsInv(s, s', p, q');
    TouchKeepsAudit(a, s', p, q', AckedBy(s, Complete(key)));
  }

  lemma LastCompleteKeepsAudit(a: Audit, key: LeaseKey)
    requires AuditOk(a) && Finishes(a.s, key)
    ensures AuditOk(Audit(CompleteLease(a.s, key).0, a.acked + AckedBy(a.s, Complete(key))))
  {
    hide Count, PieceOf, Start, End, PieceOk, PiecesOk, IndexesOk, Unacked, Has, Held, PieceMaps.Valid;
    var s, p := a.s, key.piece;
    ActiveBounds(s, key);
    PieceAtOk(s, p);
    CompleteInHeld(s.pieces[p], key.lease, Start(s.pm.g, p), End(s.pm.g, p), s.nextId);
    FinishKeepsInv(s, key);
    NothingHeld(CompleteIn(s.pieces[p], key.lease));
    FinishKeepsAudit(a, CompleteLease(s, key).0, p, AckedBy(s, Complete(key)));
  }

  lemma NothingHeld(q: PieceState)
    requires q.missing == [] && q.leases == map[]
    ensures forall x :: !Held(q, x)
  {
  }

  ghost predicate Finishes(s: State, key: LeaseKey) {
    && Active(s, key)
    && s.pieces[key.piece].missing == [] && s.pieces[key.piece].leases - {key.lease} == map[]
  }

  /** A piece whose last lease `key` completed: its bit is set and its detail dropped. */
  ghost predicate Finished(s: State, key: LeaseKey, s': State) {
    && Finishes(s, key) && key.piece < |s.pm.completed| == Count(s.pm.g) && !s.pm.completed[key.piece]
    && s'.pm.g == s.pm.g && s'.pm.completed == s.pm.completed[key.piece := true]
    && s'.pieces == s.pieces - {key.piece}
  }

  lemma FinishMovesLeases(s: State, key: LeaseKey, s': State)
    requires Finished(s, key, s')
    ensures SumTo(LeaseCounts(s'), Count(s.pm.g)) == SumTo(LeaseCounts(s), Count(s.pm.g)) - 1
  {
    hide Count, PieceOf, Start, End, PieceOk;
    var p, n := key.piece, Count(s.pm.g);
    assert |s.pieces[p].leases| == 1 by {
      assert s.pieces[p].leases.Keys == (s.pieces[p].leases - {key.lease}).Keys + {key.lease};
    }
    SumToUpdate(LeaseCounts(s), LeaseCounts(s'), p, n);
  }

  lemma FinishKeepsRanges(s: State, key: LeaseKey, s': State)
    requires Finished(s, key, s')
    ensures SumTo(RangeCounts(s'), Count(s.pm.g)) == SumTo(RangeCounts(s), Count(s.pm.g))
  {
    hide Count, PieceOf, Start, End, PieceOk;
    SumToSame(RangeCounts(s), RangeCounts(s'), Count(s.pm.g));
  }

  lemma FinishKeepsMissing(s: State, key: LeaseKey, s': State)
    requires Finished(s, key, s')
    ensures MissingBytes(s') == MissingBytes(s)
  {
    hide Count, PieceOf, Start, End, PieceOk;
    SumToSame(MissingCounts(s), MissingCounts(s'), Count(s.pm.g));
  }

  lemma FinishMovesSums(s: State, key: LeaseKey, s': State)
    requires Finished(s, key, s')
    ensures SumTo(LeaseCounts(s'), Count(s.pm.g)) == SumTo(LeaseCounts(s), Count(s.pm.g)) - 1
    ensures SumTo(RangeCounts(s'), Count(s.pm.g)) == SumTo(RangeCounts(s), Count(s.pm.g))
    ensures MissingBytes(s') == MissingBytes(s)
  {
    hide Count, LeaseCounts, RangeCounts, MissingBytes, SumTo;
    FinishMovesLeases(s, key, s');
    FinishKeepsRanges(s, key, s');
    FinishKeepsMissing(s, key, s');
  }

  lemma FinishKeepsIndexes(s: State, key: LeaseKey, s': State)
    requires IndexesOk(s) && Finished(s, key, s')
    requires s'.available == s.available && s'.cursor == s.cursor
    requires s'.leaseCount == s.leaseCount - 1 && s'.rangeCount == s.rangeCount
    ensures IndexesOk(s')
  {
    hide Count, PieceOf, Start, End, PieceOk;
    FinishMovesSums(s, key, s');
  }

  /** The last outstanding lease of a piece sets its durable bit and drops its detail. */
  lemma FinishKeepsInv(s: State, key: LeaseKey)
    requires Inv(s) && Finishes(s, key)
    ensures Inv(CompleteLease(s, key).0)
  {
    hide Count, PieceOf, Start, End, PieceOk, IndexesOk;
    ActiveBounds(s, key);
    var s' := CompleteLease(s, key).0;
    MarkCompleteValid(s.pm, key.piece);
    FinishKeepsIndexes(s, key, s');
    assert PiecesOk(s');
  }

  lemma FinishKeepsAudit(a: Audit, s': State, p: nat, gone: set<nat>)
    requires AuditOk(a) && Inv(s') && p in a.s.pieces && p < Count(a.s.pm.g)
    requires s'.pm.g == a.s.pm.g && s'.pm.completed == a.s.pm.completed[p := true]
    requires s'.pieces == a.s.pieces - {p}
    requires forall x: nat :: Held(PieceAt(a.s, p), x) ==> x in gone
    requires forall x :: x in gone ==> Start(a.s.pm.g, p) <= x < End(a.s.pm.g, p)
    ensures AuditOk(Audit(s', a.acked + gone))
  {
    hide Count, PieceOf, Start, End, PieceOk, PiecesOk, IndexesOk, Has;
    var g := a.s.pm.g;
    forall x: nat ensures x in a.acked + gone <==> x < g.totalSize && !Unacked(s', x) {
      PieceOfUnique(g, x, p);
      PieceOfUnique(g, x, PieceOf(g, x));
      assert PieceOf(g, x) != p ==> (Unacked(s', x) <==> Unacked(a.s, x));
    }
  }

  function Next(a: Audit, op: Op): Audit
    requires Inv(a.s)
  {
    Audit(Step(a.s, op), a.acked + AckedBy(a.s, op))
  }

  lemma StepKeepsGeometry(s: State, op: Op)
    requires Inv(s)
    ensures Step(s, op).pm.g == s.pm.g
  {
    hide Inv, Count;
    InvShape(s);
  }

  lemma CursorBound(s: State)
    requires Inv(s)
    ensures s.cursor < Max(Count(s.pm.g), 1)
  {
  }

  lemma StepKeepsAudit(a: Audit, op: Op)
    requires AuditOk(a)
    ensures AuditOk(Next(a, op))
    ensures Next(a, op).s.pm.g == a.s.pm.g
  {
    hide AuditOk, Inv, Count, IssueLease, RenewLease, RetainPrefix, CompleteLease, ReclaimLease;
    AuditInv(a);
    CursorBound(a.s);
    StepKeepsGeometry(a.s, op);
    assert a.acked + {} == a.acked;
    match op {
      case Issue(p, r, w) => if Issuable(a.s, p, r) { IssueKeepsAudit(a, p, r, w); }
      case Renew(key, w) => RenewStep(a, key, w);
      case Retain(key, e) => RetainStep(a, key, e);
      case Complete(key) => CompleteStep(a, key);
      case Reclaim(key) => ReclaimStep(a, key);
      case Stop => SameBytes(a, Step(a.s, op));
      case Seek(_) => SameBytes(a, Step(a.s, op));
      case Hint => SameBytes(a, Step(a.s, op));
    }
  }

  lemma RenewStep(a: Audit, key: LeaseKey, worker: nat)
    requires AuditOk(a)
    ensures AuditOk(Audit(RenewLease(a.s, key, worker).0, a.acked))
  {
    hide AuditOk;
    if Active(a.s, key) {
      RenewKeepsAudit(a, key, worker);
    }
  }

  lemma RetainStep(a: Audit, key: LeaseKey, confirmed: nat)
    requires AuditOk(a)
    ensures AuditOk(Audit(RetainPrefix(a.s, key, confirmed).0, a.acked + AckedBy(a.s, Retain(key, confirmed))))
  {
    hide AuditOk;
    assert a.acked + {} == a.acked;
    if Retainable(a.s, key, confirmed) {
      RetainKeepsAudit(a, key, confirmed);
    }
  }

  lemma CompleteStep(a: Audit, key: LeaseKey)
    requires AuditOk(a)
    ensures |a.s.pm.completed| == Count(a.s.pm.g) && a.s.pm.nextCandidate <= Count(a.s.pm.g)
    ensures AuditOk(Audit(CompleteLease(a.s, key).0, a.acked + AckedBy(a.s, Complete(key))))
  {
    hide AuditOk, Inv, Count;
    AuditInv(a);
    assert a.acked + {} == a.acked;
    if Active(a.s, key) {
      CompleteKeepsAudit(a, key);
    }
  }

  lemma ReclaimStep(a: Audit, key: LeaseKey)
    requires AuditOk(a)
    ensures |a.s.available| == Count(a.s.pm.g)
    ensures AuditOk(Audit(ReclaimLease(a.s, key).0, a.acked))
  {
    hide AuditOk, Inv, Count;
    AuditInv(a);
    if Active(a.s, key) {
      ReclaimKeepsAudit(a, key);
    }
  }

  lemma SameBytes(a: Audit, s': State)
    requires AuditOk(a)
    requires s'.pm == a.s.pm && s'.pieces == a.s.pieces && s'.available == a.s.available
    requires s'.leaseCount == a.s.leaseCount && s'.rangeCount == a.s.rangeCount && s'.nextId == a.s.nextId
    requires s'.cursor < Max(Count(a.s.pm.g), 1)
    ensures AuditOk(Audit(s', a.acked))
  {
    hide Count, PieceOf, Start, End, PieceOk;
    var s, n := a.s, Count(a.s.pm.g);
    SumToSame(LeaseCounts(s), LeaseCounts(s'), n);
    SumToSame(RangeCounts(s), RangeCounts(s'), n);
    assert forall p :: PieceAt(s', p) == PieceAt(s, p);
    assert forall x :: Unacked(s', x) <==> Unacked(s, x);
  }

  /** Any finite run of elementary transitions. */
  ghost function Run(a: Audit, ops: seq<Op>): Audit
    requires AuditOk(a)
    decreases |ops|
  {
    if ops == [] then a
    else
      StepKeepsAudit(a, ops[0]);
      Run(Next(a, ops[0]), ops[1..])
  }

  lemma {:induction false} RunKeepsAudit(a: Audit, ops: seq<Op>)
    requires AuditOk(a)
    ensures AuditOk(Run(a, ops))
    ensures Run(a, ops).s.pm.g == a.s.pm.g
    decreases |ops|
  {
    hide Inv, Unacked, Next;
    if ops != [] {
      StepKeepsAudit(a, ops[0]);
      RunKeepsAudit(Next(a, ops[0]), ops[1..]);
    }
  }

  lemma {:induction false} RunConcat(a: Audit, first: seq<Op>, second: seq<Op>)
    requires AuditOk(a)
    ensures AuditOk(Run(a, first))
    ensures Run(a, first + second) == Run(Run(a, first), second)
    decreases |first|
  {
    hide Inv, Unacked, Next;
    RunKeepsAudit(a, first);
    if first == [] {
      assert first + second == second;
    } else {
      StepKeepsAudit(a, first[0]);
      RunConcat(Next(a, first[0]), first[1..], second);
      assert (first + second)[1..] == first[1..] + second;
    }
  }

  // ----- the initial state

  /** Bytes of the pieces restored as complete. */
  function RestoredBytes(pm: PieceMap): set<nat> {
    set x: nat | x < pm.g.totalSize && IsComplete(pm, PieceOf(pm.g, x))
  }

  function Start0(pm: PieceMap): Audit {
    Audit(Init(pm), RestoredBytes(pm))
  }

  /** A fresh scheduler's indexes agree with its piece map, and exactly the restored
      bytes count as acknowledged. */
  lemma InitAudit(pm: PieceMap)
    requires PieceMaps.Valid(pm)
    ensures AuditOk(Start0(pm))
    ensures forall x: nat :: Missing(Init(pm), x) <==> x < pm.g.totalSize && !IsComplete(pm, PieceOf(pm.g, x))
  {
    var s, n := Init(pm), Count(pm.g);
    forall p: nat | p < n ensures RangeCounts(s)(p) == 1 - DoneCounts(pm.completed)(p) && PieceAt(s, p).missing != [] {
      PieceBounds(pm.g, p);
    }
    SumToComplement(DoneCounts(pm.completed), RangeCounts(s), n);
    SumToSame(LeaseCounts(s), _ => 0, n);
    SumToConstant(0, n);
    forall x: nat | x < pm.g.totalSize ensures Has(PieceAt(s, PieceOf(pm.g, x)).missing, x) {
      PieceOfUnique(pm.g, x, PieceOf(pm.g, x));
      HasOne(PieceRange(pm.g, PieceOf(pm.g, x)));
    }
  }
}
