/** What renewing and reclaiming a lease change and what they leave alone, and what the
    attempt counter of a piece counts. */
module LeaseChanges {
  import opened Arith
  import opened Ranges
  import opened RangeLaws
  import opened PieceMaps
  import opened Leases
  import opened SchedulerModel
  import opened SchedulerLaws
  import opened SchedulerTheorems
  import opened RequestLaws

  /** From `s` to `s'` the lease `key` was replaced by that of `seg`, a fresh one on the same
      range; every other lease and every missing range stayed. */
  ghost predicate Renewed(s: State, s': State, key: LeaseKey, worker: nat, seg: Segment) {
    && Active(s, key) && !Active(s', key) && Active(s', seg.Key())
    && seg.piece == key.piece && seg.lease >= s.nextId && seg.lease < s'.nextId && seg.owner == worker
    && RangeOf(s', seg.Key()) == seg.Range() == RangeOf(s, key)
    && seg.attempt == PieceAt(s, key.piece).attempts + 1 == PieceAt(s', key.piece).attempts
    && (forall k :: k != key && k != seg.Key() ==> (Active(s', k) <==> Active(s, k)))
    && (forall k :: k != key && Active(s, k) ==> Active(s', k) && RangeOf(s', k) == RangeOf(s, k))
    && (forall p :: PieceAt(s', p).missing == PieceAt(s, p).missing)
    && s'.pm == s.pm && s'.available == s.available && s'.cursor == s.cursor && s'.stopped == s.stopped
  }

  lemma RenewExact(s: State, key: LeaseKey, worker: nat)
    requires Inv(s)
    ensures var r := RenewLease(s, key, worker);
            && (r.1.Some? <==> Active(s, key))
            && (r.1.Some? ==> Renewed(s, r.0, key, worker, r.1.value))
            && (r.1.None? ==> r.0 == s)
  {
    hide Inv, IsComplete, Renewed;
    if Active(s, key) {
      FreshId(s, key.piece);
      ActiveBounds(s, key);
      RenewShape(s, key, worker);
    }
  }

  lemma RenewShape(s: State, key: LeaseKey, worker: nat)
    requires Active(s, key) && !IsComplete(s.pm, key.piece)
    requires key.lease < s.nextId && s.nextId !in s.pieces[key.piece].leases
    ensures var r := RenewLease(s, key, worker); r.1.Some? && Renewed(s, r.0, key, worker, r.1.value)
  {
    hide IsComplete, PieceRange;
  }

  /** From `s` to `s'` the lease `key` ended and exactly its bytes became missing; the next
      search starts no later than at its piece. */
  ghost predicate Reclaimed(s: State, s': State, key: LeaseKey) {
    && Active(s, key) && !Active(s', key)
    && (forall x: nat :: Missing(s', x) <==> Missing(s, x) || LeasedBy(s, key, x))
    && (forall k :: k != key ==> (Active(s', k) <==> Active(s, k)))
    && (forall k :: k != key && Active(s, k) ==> RangeOf(s', k) == RangeOf(s, k))
    && (forall p: nat :: IsNextAvailable(s'.available, s'.cursor, p) ==> Min(s.cursor, key.piece) <= p <= key.piece)
    && s'.pm == s.pm && s'.stopped == s.stopped && s'.nextId == s.nextId
  }

  lemma ReclaimExact(s: State, key: LeaseKey)
    requires Inv(s) && (Active(s, key) ==> key.piece < |s.available|)
    ensures var r := ReclaimLease(s, key);
            && (r.1 <==> Active(s, key))
            && (r.1 ==> Reclaimed(s, r.0, key))
            && (!r.1 ==> r.0 == s)
  {
    hide Inv, Insert, Missing, IsNextAvailable, PieceRange, LeasedBy;
    if Active(s, key) {
      ReclaimedBytes(s, key);
      ReclaimedCursor(s, key);
    }
  }

  lemma AuditAvailable(a: Audit, key: LeaseKey)
    requires AuditOk(a)
    ensures Inv(a.s) && (Active(a.s, key) ==> key.piece < |a.s.available|)
  {
    if Active(a.s, key) {
      ActiveBounds(a.s, key);
    }
  }

  lemma ReclaimedBytes(s: State, key: LeaseKey)
    requires Inv(s) && Active(s, key) && key.piece < |s.available|
    ensures forall x: nat :: Missing(ReclaimLease(s, key).0, x) <==> Missing(s, x) || LeasedBy(s, key, x)
  {
    hide Insert, Has, IndexesOk, Count;
    var q, s' := s.pieces[key.piece], ReclaimLease(s, key).0;
    ActiveBounds(s, key);
    InsertCorrect(q.missing, q.leases[key.lease]);
    forall x: nat ensures Missing(s', x) <==> Missing(s, x) || LeasedBy(s, key, x) {
      if LeasedBy(s, key, x) {
        LeasedByPiece(s, key, x);
      }
      assert Has(Insert(q.missing, q.leases[key.lease]), x) <==> Has(q.missing, x) || Covers(q.leases[key.lease], x);
    }
  }

  lemma ReclaimedCursor(s: State, key: LeaseKey)
    requires Active(s, key) && key.piece < |s.available|
    ensures var s' := ReclaimLease(s, key).0;
            forall p: nat :: IsNextAvailable(s'.available, s'.cursor, p) ==> Min(s.cursor, key.piece) <= p <= key.piece
  {
    var s' := ReclaimLease(s, key).0;
    assert s'.available[key.piece];
  }

  /** A fresh scheduler leases the first incomplete piece first. */
  lemma StartsAtFirstGap(pm: PieceMap, p: nat)
    requires PieceMaps.Valid(pm)
    ensures IsNextAvailable(Init(pm).available, Init(pm).cursor, p) <==>
            p < Count(pm.g) && !IsComplete(pm, p) && forall q: nat :: q < p ==> IsComplete(pm, q)
  {
    hide Count;
    var s, c := Init(pm), pm.nextCandidate;
    assert forall q: nat :: q < |s.available| ==> (s.available[q] <==> !IsComplete(pm, q));
    if c < Count(pm.g) {
      assert s.available[c] && !IsComplete(pm, c);
      assert IsNextAvailable(s.available, c, p) <==> p == c;
    }
  }

  // ----- attempts

  /** The operation opens a lease on piece `p`, under the next identity. */
  predicate Opens(s: State, op: Op, p: nat)
    requires Inv(s)
  {
    Active(Step(s, op), LeaseKey(p, s.nextId))
  }

  /** How many leases a run opens on piece `p`. */
  ghost function Opened(a: Audit, ops: seq<Op>, p: nat): nat
    requires AuditOk(a)
    decreases |ops|
  {
    if ops == [] then 0
    else
      StepKeepsAudit(a, ops[0]);
      (if Opens(a.s, ops[0], p) then 1 else 0) + Opened(Next(a, ops[0]), ops[1..], p)
  }

  lemma StepCountsAttempt(s: State, op: Op, p: nat)
    requires Inv(s)
    ensures IsComplete(s.pm, p) ==> IsComplete(Step(s, op).pm, p)
    ensures !IsComplete(Step(s, op).pm, p) ==>
              PieceAt(Step(s, op), p).attempts == PieceAt(s, p).attempts + (if Opens(s, op, p) then 1 else 0)
  {
    hide Inv, Count, Start, End, Remove, Insert;
    FreshId(s, p);
    InvShape(s);
    if op.Complete? && Active(s, op.key) {
      ActiveBounds(s, op.key);
    }
  }

  lemma {:induction false} RunCountsAttempts(a: Audit, ops: seq<Op>, p: nat)
    requires AuditOk(a)
    ensures IsComplete(a.s.pm, p) ==> IsComplete(Run(a, ops).s.pm, p)
    ensures !IsComplete(Run(a, ops).s.pm, p) ==>
              PieceAt(Run(a, ops).s, p).attempts == PieceAt(a.s, p).attempts + Opened(a, ops, p)
    decreases |ops|
  {
    hide Inv, Unacked, Step, IsComplete, Opens, PieceAt;
    if ops != [] {
      StepKeepsAudit(a, ops[0]);
      StepCountsAttempt(a.s, ops[0], p);
      RunCountsAttempts(Next(a, ops[0]), ops[1..], p);
    }
  }

  /** On every run from a fresh scheduler, the attempt counter of an incomplete piece is the
      number of leases opened on it, so a lease numbered 1 is the first one. */
  lemma AttemptsCountLeases(pm: PieceMap, ops: seq<Op>, p: nat)
    requires PieceMaps.Valid(pm)
    ensures AuditOk(Start0(pm))
    ensures var s := Run(Start0(pm), ops).s;
            !IsComplete(s.pm, p) ==> PieceAt(s, p).attempts == Opened(Start0(pm), ops, p)
  {
    hide AuditOk, Run, Opened, IsComplete;
    InitAudit(pm);
    RunCountsAttempts(Start0(pm), ops, p);
  }

  // ----- pieces partly acknowledged

  ghost predicate SomeAcked(a: Audit, p: nat) {
    exists x: nat :: x in a.acked && PieceOf(a.s.pm.g, x) == p
  }

  lemma AckedInPiece(s: State, op: Op)
    requires Inv(s) && (op.Complete? || op.Retain?)
    ensures forall x: nat :: x in AckedBy(s, op) ==> PieceOf(s.pm.g, x) == op.key.piece
    ensures op.Complete? && Active(s, op.key) ==> AckedBy(s, op) != {}
    ensures op.Retain? && Retainable(s, op.key, op.confirmed) ==> AckedBy(s, op) != {}
  {
    hide Inv, Count, Start, End;
    if Active(s, op.key) {
      ActiveBounds(s, op.key);
      var r := RangeOf(s, op.key);
      forall x: nat | x in BytesOf(r) ensures PieceOf(s.pm.g, x) == op.key.piece {
        PieceOfUnique(s.pm.g, x, op.key.piece);
      }
      assert r.start in BytesOf(r);
      assert op.Retain? && Retainable(s, op.key, op.confirmed) ==> r.start in BytesOf(r.(end := op.confirmed));
    }
  }

  lemma StepMarks(s: State, op: Op, p: nat)
    requires Inv(s)
    ensures IsComplete(s.pm, p) ==> IsComplete(Step(s, op).pm, p)
    ensures !IsComplete(Step(s, op).pm, p) ==>
              (PieceAt(Step(s, op), p).hasCompleted <==>
               || PieceAt(s, p).hasCompleted
               || (op.Complete? && op.key.piece == p && Active(s, op.key))
               || (op.Retain? && op.key.piece == p && Retainable(s, op.key, op.confirmed)))
    ensures Step(s, op).pm.g == s.pm.g
  {
    hide Inv, Count, Start, End, Remove, Insert;
    InvShape(s);
    if op.Complete? && Active(s, op.key) {
      ActiveBounds(s, op.key);
    }
  }

  lemma StepKeepsMark(a: Audit, op: Op, p: nat)
    requires Inv(a.s) && !IsComplete(Step(a.s, op).pm, p)
    requires PieceAt(a.s, p).hasCompleted <==> SomeAcked(a, p)
    ensures PieceAt(Next(a, op).s, p).hasCompleted <==> SomeAcked(Next(a, op), p)
  {
    hide Inv, Step, PieceAt, Retainable, Active, PieceOf, IsComplete;
    StepMarks(a.s, op, p);
    if op.Complete? || op.Retain? {
      AckedInPiece(a.s, op);
    }
    forall x: nat ensures x in Next(a, op).acked <==> x in a.acked || x in AckedBy(a.s, op) {
    }
  }

  lemma {:induction false} RunKeepsMark(a: Audit, ops: seq<Op>, p: nat)
    requires AuditOk(a) && (!IsComplete(a.s.pm, p) ==> (PieceAt(a.s, p).hasCompleted <==> SomeAcked(a, p)))
    ensures var b := Run(a, ops); !IsComplete(b.s.pm, p) ==> (PieceAt(b.s, p).hasCompleted <==> SomeAcked(b, p))
    decreases |ops|
  {
    hide Inv, Unacked, Step, IsComplete, PieceAt, SomeAcked;
    if ops != [] {
      StepKeepsAudit(a, ops[0]);
      StepMarks(a.s, ops[0], p);
      if !IsComplete(Step(a.s, ops[0]).pm, p) {
        StepKeepsMark(a, ops[0], p);
      }
      RunKeepsMark(Next(a, ops[0]), ops[1..], p);
    }
  }

  /** On every run from a fresh scheduler, an incomplete piece is flagged as partly completed
      exactly when some of its bytes are acknowledged. */
  lemma FlagMeansAcked(pm: PieceMap, ops: seq<Op>, p: nat)
    requires PieceMaps.Valid(pm)
    ensures AuditOk(Start0(pm))
    ensures var a := Run(Start0(pm), ops);
            !IsComplete(a.s.pm, p) ==> (PieceAt(a.s, p).hasCompleted <==> SomeAcked(a, p))
  {
    hide AuditOk, Run, IsComplete;
    InitAudit(pm);
    RunKeepsMark(Start0(pm), ops, p);
  }
}
