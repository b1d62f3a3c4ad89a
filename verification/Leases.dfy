/** Runtime state of one touched piece (`PieceRuntimeState` in `src/scheduler.rs`):
    its missing ranges and the byte ranges leased out of it. */
module Leases {
  import opened Arith
  import opened Ranges

  datatype LeaseKey = LeaseKey(piece: nat, lease: nat)

  datatype Segment = Segment(piece: nat, lease: nat, start: nat, end: nat, owner: nat, attempt: nat) {
    function Key(): LeaseKey {
      LeaseKey(piece, lease)
    }
    function Range(): ByteRange {
      ByteRange(start, end)
    }
  }

  datatype PieceState = PieceState(
    missing: seq<ByteRange>,
    hasCompleted: bool,
    leases: map<nat, ByteRange>,
    attempts: nat
  )

  function NewPiece(full: ByteRange): PieceState {
    PieceState(NewFull(full.start, full.end), false, map[], 0)
  }

  ghost predicate LeasedAt(q: PieceState, x: int) {
    exists id :: id in q.leases && Covers(q.leases[id], x)
  }

  /** Not yet acknowledged: still missing, or out on a lease. */
  ghost predicate Held(q: PieceState, x: int) {
    Has(q.missing, x) || LeasedAt(q, x)
  }

  /** Well-formedness of the state of the piece `[lo, hi)`: missing ranges and leases
      are pairwise disjoint parts of the piece, and something is still outstanding. */
  ghost predicate PieceOk(q: PieceState, lo: nat, hi: nat, nextId: nat) {
    && Canonical(q.missing) && Within(q.missing, lo, hi)
    && (forall id :: id in q.leases ==>
          id < nextId && lo <= q.leases[id].start < q.leases[id].end <= hi)
    && (forall a, b :: a in q.leases && b in q.leases && a != b ==> Disjoint(q.leases[a], q.leases[b]))
    && (forall x, id :: id in q.leases && Covers(q.leases[id], x) ==> !Has(q.missing, x))
    && (q.missing != [] || q.leases != map[])
  }

  /** Take `r` out of the missing bytes and record it under a fresh identity. */
  function IssueIn(q: PieceState, r: ByteRange, id: nat): Option<PieceState> {
    match Remove(q.missing, r)
    case None => None
    case Some(rest) =>
      Some(q.(missing := rest, leases := q.leases[id := r], attempts := q.attempts + 1))
  }

  function RenewIn(q: PieceState, old_: nat, id: nat): PieceState
    requires old_ in q.leases
  {
    q.(leases := (q.leases - {old_})[id := q.leases[old_]], attempts := q.attempts + 1)
  }

  function RetainIn(q: PieceState, id: nat, confirmed: nat): PieceState
    requires id in q.leases
  {
    q.(leases := q.leases[id := q.leases[id].(start := confirmed)], hasCompleted := true)
  }

  function CompleteIn(q: PieceState, id: nat): PieceState {
    q.(leases := q.leases - {id}, hasCompleted := true)
  }

  function ReclaimIn(q: PieceState, id: nat): PieceState
    requires id in q.leases
  {
    q.(missing := Insert(q.missing, q.leases[id]), leases := q.leases - {id})
  }
}

module LeaseLaws {
  import opened Arith
  import opened Ranges
  import opened RangeLaws
  import opened Leases

  lemma NewPieceOk(lo: nat, hi: nat, nextId: nat)
    requires lo < hi
    ensures PieceOk(NewPiece(ByteRange(lo, hi)), lo, hi, nextId)
    ensures NewPiece(ByteRange(lo, hi)).missing == [ByteRange(lo, hi)]
    ensures forall x :: Held(NewPiece(ByteRange(lo, hi)), x) <==> lo <= x < hi
  {
    HasOne(ByteRange(lo, hi));
  }

  /** A lease is issued exactly when all its bytes are missing; the piece stays well-formed. */
  lemma IssueInOk(q: PieceState, r: ByteRange, lo: nat, hi: nat, id: nat)
    requires PieceOk(q, lo, hi, id) && r.start < r.end
    ensures IssueIn(q, r, id).Some? <==> forall x :: Covers(r, x) ==> Has(q.missing, x)
    ensures IssueIn(q, r, id).Some? ==> PieceOk(IssueIn(q, r, id).value, lo, hi, id + 1)
  {
    RemoveCorrect(q.missing, r);
    if IssueIn(q, r, id).Some? {
      HasWithin(q.missing, lo, hi, r);
      IssueInPieceOk(q, Remove(q.missing, r).value, r, lo, hi, id);
    }
  }

  /** Issuing moves `r` from missing to leased and nothing else. */
  lemma IssueInEffect(q: PieceState, r: ByteRange, lo: nat, hi: nat, id: nat)
    requires PieceOk(q, lo, hi, id) && r.start < r.end && IssueIn(q, r, id).Some?
    ensures var q' := IssueIn(q, r, id).value;
            && (forall x :: Has(q'.missing, x) <==> Has(q.missing, x) && !Covers(r, x))
            && (forall x :: Held(q', x) <==> Held(q, x))
            && |q'.leases| == |q.leases| + 1
            && Bytes(q'.missing) == Bytes(q.missing) - (r.end - r.start)
            && lo <= r.start && r.end <= hi
  {
    RemoveCorrect(q.missing, r);
    IssueInHeld(q, Remove(q.missing, r).value, r, id);
    HasWithin(q.missing, lo, hi, r);
  }

  lemma IssueInHeld(q: PieceState, rest: seq<ByteRange>, r: ByteRange, id: nat)
    requires id !in q.leases
    requires forall x :: Has(rest, x) <==> Has(q.missing, x) && !Covers(r, x)
    requires forall x :: Covers(r, x) ==> Has(q.missing, x)
    ensures var q' := q.(missing := rest, leases := q.leases[id := r], attempts := q.attempts + 1);
            forall x :: Held(q', x) <==> Held(q, x)
  {
    var q' := q.(missing := rest, leases := q.leases[id := r], attempts := q.attempts + 1);
    forall x ensures LeasedAt(q', x) <==> LeasedAt(q, x) || Covers(r, x) {
      if Covers(r, x) {
        assert Covers(q'.leases[id], x);
      }
      if k :| k in q.leases && Covers(q.leases[k], x) {
        assert k in q'.leases && Covers(q'.leases[k], x);
      }
    }
  }

  lemma IssueInPieceOk(q: PieceState, rest: seq<ByteRange>, r: ByteRange, lo: nat, hi: nat, id: nat)
    requires PieceOk(q, lo, hi, id) && lo <= r.start < r.end <= hi && Canonical(rest)
    requires forall x :: Has(rest, x) <==> Has(q.missing, x) && !Covers(r, x)
    requires forall x :: Covers(r, x) ==> Has(q.missing, x)
    ensures PieceOk(q.(missing := rest, leases := q.leases[id := r], attempts := q.attempts + 1), lo, hi, id + 1)
  {
    WithinShrinks(q.missing, rest, lo, hi);
    forall a | a in q.leases ensures Disjoint(q.leases[a], r) {
      LeaseApart(q, a, r);
    }
    assert id in q.leases[id := r];
  }

  lemma LeaseApart(q: PieceState, a: nat, r: ByteRange)
    requires a in q.leases && q.leases[a].start < q.leases[a].end && r.start < r.end
    requires forall x, id :: id in q.leases && Covers(q.leases[id], x) ==> !Has(q.missing, x)
    requires forall x :: Covers(r, x) ==> Has(q.missing, x)
    ensures Disjoint(q.leases[a], r)
  {
    var l := q.leases[a];
    assert !(Covers(l, r.start) && Covers(r, r.start));
    assert !(Covers(l, l.start) && Covers(r, l.start));
  }

  lemma HasWithin(rs: seq<ByteRange>, lo: nat, hi: nat, r: ByteRange)
    requires Within(rs, lo, hi) && r.start < r.end
    requires forall x :: Covers(r, x) ==> Has(rs, x)
    ensures lo <= r.start && r.end <= hi
  {
    assert Covers(r, r.start) && Covers(r, r.end - 1);
  }

  lemma WithinShrinks(rs: seq<ByteRange>, out: seq<ByteRange>, lo: nat, hi: nat)
    requires Canonical(out) && Within(rs, lo, hi)
    requires forall x :: Has(out, x) ==> Has(rs, x)
    ensures Within(out, lo, hi)
  {
    forall i | 0 <= i < |out| ensures lo <= out[i].start && out[i].end <= hi {
      assert Covers(out[i], out[i].start) && Covers(out[i], out[i].end - 1);
      assert Has(out, out[i].start) && Has(out, out[i].end - 1);
    }
  }

  /** Renewal replaces the identity and keeps the range. */
  lemma RenewInOk(q: PieceState, old_: nat, lo: nat, hi: nat, id: nat)
    requires PieceOk(q, lo, hi, id) && old_ in q.leases
    ensures var q' := RenewIn(q, old_, id);
            && PieceOk(q', lo, hi, id + 1)
            && |q'.leases| == |q.leases|
            && forall x :: Held(q', x) <==> Held(q, x)
  {
    var q' := RenewIn(q, old_, id);
    assert q.leases.Keys == (q.leases - {old_}).Keys + {old_};
    assert q'.leases.Keys == (q.leases - {old_}).Keys + {id};
    forall x ensures LeasedAt(q', x) <==> LeasedAt(q, x) {
      if LeasedAt(q, x) {
        var k :| k in q.leases && Covers(q.leases[k], x);
        var k' := if k == old_ then id else k;
        assert k' in q'.leases && Covers(q'.leases[k'], x);
      }
      if LeasedAt(q', x) {
        var k :| k in q'.leases && Covers(q'.leases[k], x);
        var k' := if k == id then old_ else k;
        assert k' in q.leases && Covers(q.leases[k'], x);
      }
    }
  }

  /** Retaining acknowledges exactly the confirmed prefix of one lease. */
  lemma RetainInOk(q: PieceState, id: nat, confirmed: nat, lo: nat, hi: nat, nextId: nat)
    requires PieceOk(q, lo, hi, nextId) && id in q.leases
    requires q.leases[id].start < confirmed < q.leases[id].end
    ensures var q' := RetainIn(q, id, confirmed);
            && PieceOk(q', lo, hi, nextId)
            && q'.leases.Keys == q.leases.Keys
            && forall x :: Held(q', x) <==> Held(q, x) && !(q.leases[id].start <= x < confirmed)
  {
    hide PieceOk, Held;
    RetainInPieceOk(q, id, confirmed, lo, hi, nextId);
    forall x ensures Held(RetainIn(q, id, confirmed), x) <==> Held(q, x) && !(q.leases[id].start <= x < confirmed) {
      RetainAt(q, id, confirmed, lo, hi, nextId, x);
    }
  }

  lemma RetainInPieceOk(q: PieceState, id: nat, confirmed: nat, lo: nat, hi: nat, nextId: nat)
    requires PieceOk(q, lo, hi, nextId) && id in q.leases
    requires q.leases[id].start < confirmed < q.leases[id].end
    ensures PieceOk(RetainIn(q, id, confirmed), lo, hi, nextId)
    ensures RetainIn(q, id, confirmed).leases.Keys == q.leases.Keys
  {
    hide Has, Canonical, Within;
    var q' := RetainIn(q, id, confirmed);
    forall x, k | k in q'.leases && Covers(q'.leases[k], x) ensures !Has(q'.missing, x) {
      assert Covers(q.leases[k], x);
    }
  }

  lemma RetainAt(q: PieceState, id: nat, confirmed: nat, lo: nat, hi: nat, nextId: nat, x: int)
    requires PieceOk(q, lo, hi, nextId) && id in q.leases
    requires q.leases[id].start < confirmed < q.leases[id].end
    ensures Held(RetainIn(q, id, confirmed), x) <==> Held(q, x) && !(q.leases[id].start <= x < confirmed)
  {
    hide Has, Canonical, Within;
    var q' := RetainIn(q, id, confirmed);
    if LeasedAt(q', x) {
      var k :| k in q'.leases && Covers(q'.leases[k], x);
      assert Covers(q.leases[k], x) && (k == id || Disjoint(q.leases[k], q.leases[id]));
    }
    if LeasedAt(q, x) {
      var k :| k in q.leases && Covers(q.leases[k], x);
      assert k == id || Covers(q'.leases[k], x);
      assert x >= confirmed && k == id ==> Covers(q'.leases[id], x);
    }
    if q.leases[id].start <= x < confirmed {
      assert Covers(q.leases[id], x);
    }
  }

  /** Completing acknowledges exactly the lease's range. */
  lemma CompleteInHeld(q: PieceState, id: nat, lo: nat, hi: nat, nextId: nat)
    requires PieceOk(q, lo, hi, nextId) && id in q.leases
    ensures var q' := CompleteIn(q, id);
            && |q'.leases| == |q.leases| - 1
            && (q'.missing != [] || q'.leases != map[] ==> PieceOk(q', lo, hi, nextId))
            && (forall x :: Held(q', x) <==> Held(q, x) && !Covers(q.leases[id], x))
  {
    hide PieceOk, Held;
    CompleteInPieceOk(q, id, lo, hi, nextId);
    forall x ensures Held(CompleteIn(q, id), x) <==> Held(q, x) && !Covers(q.leases[id], x) {
      CompleteAt(q, id, lo, hi, nextId, x);
    }
  }

  lemma CompleteInPieceOk(q: PieceState, id: nat, lo: nat, hi: nat, nextId: nat)
    requires PieceOk(q, lo, hi, nextId) && id in q.leases
    ensures var q' := CompleteIn(q, id);
            && |q'.leases| == |q.leases| - 1
            && (q'.missing != [] || q'.leases != map[] ==> PieceOk(q', lo, hi, nextId))
  {
    hide Has, Canonical, Within;
    assert q.leases.Keys == CompleteIn(q, id).leases.Keys + {id};
  }

  lemma CompleteAt(q: PieceState, id: nat, lo: nat, hi: nat, nextId: nat, x: int)
    requires PieceOk(q, lo, hi, nextId) && id in q.leases
    ensures LeasedAt(CompleteIn(q, id), x) <==> LeasedAt(q, x) && !Covers(q.leases[id], x)
    ensures Held(CompleteIn(q, id), x) <==> Held(q, x) && !Covers(q.leases[id], x)
  {
    hide Has, Canonical, Within;
    var q' := CompleteIn(q, id);
    if LeasedAt(q, x) {
      var k :| k in q.leases && Covers(q.leases[k], x);
      assert k == id || (k in q'.leases && Covers(q'.leases[k], x));
    }
    if LeasedAt(q', x) {
      var k :| k in q'.leases && Covers(q'.leases[k], x);
      assert k in q.leases && Covers(q.leases[k], x) && Disjoint(q.leases[k], q.leases[id]);
    }
  }

  /** Reclaiming moves the lease's range back to missing and nothing else. */
  lemma ReclaimInOk(q: PieceState, id: nat, lo: nat, hi: nat, nextId: nat)
    requires PieceOk(q, lo, hi, nextId) && id in q.leases
    ensures var q' := ReclaimIn(q, id);
            && PieceOk(q', lo, hi, nextId)
            && |q'.leases| == |q.leases| - 1
            && q'.missing != []
            && (forall x :: Has(q'.missing, x) <==> Has(q.missing, x) || Covers(q.leases[id], x))
            && (forall x :: Held(q', x) <==> Held(q, x))
            && Bytes(q'.missing) == Bytes(q.missing) + (q.leases[id].end - q.leases[id].start)
  {
    hide PieceOk, Held, Has, Canonical, Within, Insert, Bytes;
    ReclaimedRanges(q, id, lo, hi, nextId);
    CompleteInPieceOk(q, id, lo, hi, nextId);
    ReclaimInPieceOk(q, id, lo, hi, nextId);
    forall x ensures Held(ReclaimIn(q, id), x) <==> Held(q, x) {
      ReclaimAt(q, id, lo, hi, nextId, x);
    }
  }

  lemma ReclaimedRanges(q: PieceState, id: nat, lo: nat, hi: nat, nextId: nat)
    requires PieceOk(q, lo, hi, nextId) && id in q.leases
    ensures var rs := Insert(q.missing, q.leases[id]);
            && Canonical(rs) && Within(rs, lo, hi) && rs != []
            && (forall x :: Has(rs, x) <==> Has(q.missing, x) || Covers(q.leases[id], x))
            && Bytes(rs) == Bytes(q.missing) + (q.leases[id].end - q.leases[id].start)
  {
    hide Insert, Bytes;
    var r := q.leases[id];
    InsertCorrect(q.missing, r);
    InsertBytes(q.missing, r);
    var rs := Insert(q.missing, r);
    forall i | 0 <= i < |rs| ensures lo <= rs[i].start && rs[i].end <= hi {
      assert Covers(rs[i], rs[i].start) && Covers(rs[i], rs[i].end - 1);
      assert Has(rs, rs[i].start) && Has(rs, rs[i].end - 1);
    }
    assert Covers(r, r.start);
  }

  lemma ReclaimInPieceOk(q: PieceState, id: nat, lo: nat, hi: nat, nextId: nat)
    requires PieceOk(q, lo, hi, nextId) && id in q.leases
    ensures PieceOk(ReclaimIn(q, id), lo, hi, nextId)
  {
    hide Has, Canonical, Within, Insert;
    ReclaimedRanges(q, id, lo, hi, nextId);
    var q' := ReclaimIn(q, id);
    forall x, k | k in q'.leases && Covers(q'.leases[k], x) ensures !Has(q'.missing, x) {
      assert k in q.leases && q.leases[k] == q'.leases[k] && k != id;
      assert Disjoint(q.leases[k], q.leases[id]);
    }
  }

  lemma ReclaimAt(q: PieceState, id: nat, lo: nat, hi: nat, nextId: nat, x: int)
    requires PieceOk(q, lo, hi, nextId) && id in q.leases
    ensures Held(ReclaimIn(q, id), x) <==> Held(q, x)
  {
    hide Has, Canonical, Within, Insert, PieceOk;
    ReclaimedRanges(q, id, lo, hi, nextId);
    CompleteAt(q, id, lo, hi, nextId, x);
    assert LeasedAt(ReclaimIn(q, id), x) <==> LeasedAt(CompleteIn(q, id), x);
    assert Covers(q.leases[id], x) ==> LeasedAt(q, x);
  }

  /** Reclaiming a lease just issued restores the missing ranges and the leases. */
  lemma IssueReclaimRestores(q: PieceState, r: ByteRange, lo: nat, hi: nat, id: nat)
    requires PieceOk(q, lo, hi, id) && r.start < r.end && IssueIn(q, r, id).Some?
    ensures var q' := ReclaimIn(IssueIn(q, r, id).value, id);
            q'.missing == q.missing && q'.leases == q.leases
  {
    ReinsertRestores(q.missing, r);
  }
}
