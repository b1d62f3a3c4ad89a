/** Bookkeeping of the planning driver: which leases are in flight, and what completing
    or granting one changes. */
module DriverLaws {
  import opened Arith
  import opened Ranges
  import opened PieceMaps
  import opened Leases
  import opened SchedulerModel
  import opened SchedulerLaws
  import opened SchedulerTheorems
  import opened RequestLaws

  /** The leases active in `s` are those of `s0`, unchanged, plus exactly the pairwise
      different leases `flight`. */
  ghost predicate Owned(s0: State, s: State, flight: seq<Segment>) {
    && (forall i :: 0 <= i < |flight| ==>
          && Active(s, flight[i].Key()) && RangeOf(s, flight[i].Key()) == flight[i].Range()
          && !Active(s0, flight[i].Key()))
    && (forall i, j :: 0 <= i < j < |flight| ==> flight[i].Key() != flight[j].Key())
    && (forall key :: Active(s0, key) ==> Active(s, key) && RangeOf(s, key) == RangeOf(s0, key))
    && (forall key :: Active(s, key) ==> Active(s0, key) || KeyIn(flight, key))
  }

  lemma OwnedNothing(s: State)
    ensures Owned(s, s, [])
  {
  }

  /** Completing a lease ends that lease and nothing else. */
  lemma CompleteEffect(s: State, key: LeaseKey)
    requires Inv(s) && Active(s, key)
    ensures |s.pm.completed| == Count(s.pm.g) && s.pm.nextCandidate <= Count(s.pm.g)
    ensures var s' := CompleteLease(s, key).0;
            && CompleteLease(s, key).1
            && (forall k :: Active(s', k) <==> Active(s, k) && k != key)
            && (forall k :: Active(s', k) ==> RangeOf(s', k) == RangeOf(s, k))
  {
    hide Inv, Count;
    InvShape(s);
    var q' := CompleteIn(s.pieces[key.piece], key.lease);
    if q'.missing == [] && q'.leases == map[] {
      forall k | Active(s, k) && k.piece == key.piece ensures k == key {
        assert k.lease !in q'.leases;
      }
    }
  }

  lemma CompleteKeepsCounts(s: State, key: LeaseKey)
    requires Inv(s) && Active(s, key)
    ensures |s.pm.completed| == Count(s.pm.g) && s.pm.nextCandidate <= Count(s.pm.g)
    ensures var s' := CompleteLease(s, key).0;
            && MissingBytes(s') == MissingBytes(s)
            && s'.stopped == s.stopped && s'.pm.g == s.pm.g && s'.rangeCount == s.rangeCount
  {
    hide Inv, Count;
    InvShape(s);
    ActiveBounds(s, key);
    var s' := CompleteLease(s, key).0;
    var q' := CompleteIn(s.pieces[key.piece], key.lease);
    if q'.missing == [] && q'.leases == map[] {
      FinishKeepsMissingBytes(s, key);
    } else {
      TouchKeepsMissingBytes(s, s', key.piece, q');
    }
  }

  lemma TouchKeepsMissingBytes(s: State, s': State, p: nat, q: PieceState)
    requires Touched(s, s', p, q) && q.missing == PieceAt(s, p).missing
    ensures MissingBytes(s') == MissingBytes(s)
  {
    TouchMovesSums(s, s', p, q);
  }

  lemma FinishKeepsMissingBytes(s: State, key: LeaseKey)
    requires Inv(s) && Finishes(s, key)
    ensures MissingBytes(CompleteLease(s, key).0) == MissingBytes(s)
  {
    hide PieceOk, Start, End, IndexesOk;
    ActiveBounds(s, key);
    FinishMovesSums(s, key, CompleteLease(s, key).0);
  }

  lemma CompleteOwned(s0: State, s: State, flight: seq<Segment>)
    requires Inv(s) && Owned(s0, s, flight) && flight != []
    ensures Active(s, flight[0].Key())
    ensures Owned(s0, CompleteLease(s, flight[0].Key()).0, flight[1..])
  {
    hide Inv, Active, RangeOf;
    CompleteEffect(s, flight[0].Key());
    var s' := CompleteLease(s, flight[0].Key()).0;
    var rest := flight[1..];
    forall i | 0 <= i < |rest|
      ensures Active(s', rest[i].Key()) && RangeOf(s', rest[i].Key()) == rest[i].Range() && !Active(s0, rest[i].Key())
    {
      assert rest[i] == flight[i + 1] && flight[0].Key() != flight[i + 1].Key();
    }
    forall key | Active(s', key) ensures Active(s0, key) || KeyIn(rest, key) {
      if !Active(s0, key) {
        var i :| 0 <= i < |flight| && flight[i].Key() == key;
        assert rest[i - 1].Key() == key;
      }
    }
  }

  lemma GapFreePieces(segs: seq<Segment>, i: nat, j: nat)
    requires GapFree(segs) && i <= j < |segs|
    ensures segs[j].piece == segs[i].piece + (j - i)
    decreases j
  {
    if i < j {
      GapFreePieces(segs, i, j - 1);
      assert segs[j - 1 + 1].piece == segs[j - 1].piece + 1;
    }
  }

  /** A new request joins the flight. */
  lemma GrantOwned(s0: State, s: State, s': State, flight: seq<Segment>, segs: seq<Segment>)
    requires Inv(s) && Owned(s0, s, flight) && Granted(s, s', segs) && GapFree(segs)
    ensures Owned(s0, s', flight + segs)
  {
    hide Missing, GrantedBytes, Inv, Active, RangeOf, KeyIn, GapFree;
    var all := flight + segs;
    JoinedActive(s0, s, s', flight, segs);
    JoinedDistinct(s0, s, s', flight, segs);
    forall key | Active(s', key) ensures Active(s0, key) || KeyIn(all, key) {
      JoinedKeys(flight, segs, key);
    }
  }

  lemma JoinedKeys(flight: seq<Segment>, segs: seq<Segment>, key: LeaseKey)
    ensures KeyIn(flight, key) || KeyIn(segs, key) ==> KeyIn(flight + segs, key)
  {
    var all := flight + segs;
    if i :| 0 <= i < |flight| && flight[i].Key() == key {
      assert all[i].Key() == key;
    }
    if j :| 0 <= j < |segs| && segs[j].Key() == key {
      assert all[|flight| + j].Key() == key;
    }
  }

  lemma JoinedActive(s0: State, s: State, s': State, flight: seq<Segment>, segs: seq<Segment>)
    requires Inv(s) && Owned(s0, s, flight) && GrantedLeases(s, s', segs)
    ensures var all := flight + segs;
            forall i :: 0 <= i < |all| ==>
              && Active(s', all[i].Key()) && RangeOf(s', all[i].Key()) == all[i].Range() && !Active(s0, all[i].Key())
  {
    hide Inv, Active, RangeOf, KeyIn;
    var all := flight + segs;
    forall i | 0 <= i < |all|
      ensures Active(s', all[i].Key()) && RangeOf(s', all[i].Key()) == all[i].Range() && !Active(s0, all[i].Key())
    {
      if i < |flight| {
        assert all[i] == flight[i];
      } else {
        assert all[i] == segs[i - |flight|];
        FreshKey(s, all[i].Key());
      }
    }
  }

  lemma JoinedDistinct(s0: State, s: State, s': State, flight: seq<Segment>, segs: seq<Segment>)
    requires Inv(s) && Owned(s0, s, flight) && GrantedLeases(s, s', segs) && GapFree(segs)
    ensures var all := flight + segs;
            forall i, j :: 0 <= i < j < |all| ==> all[i].Key() != all[j].Key()
  {
    hide Inv, Active, RangeOf, KeyIn, GapFree;
    var all := flight + segs;
    forall i, j | 0 <= i < j < |all| ensures all[i].Key() != all[j].Key() {
      if i >= |flight| {
        assert all[i] == segs[i - |flight|] && all[j] == segs[j - |flight|];
        GapFreePieces(segs, i - |flight|, j - |flight|);
      } else if j >= |flight| {
        assert all[i] == flight[i] && all[j] == segs[j - |flight|];
        FreshKey(s, all[j].Key());
      } else {
        assert all[i] == flight[i] && all[j] == flight[j];
      }
    }
  }

  lemma FreshKey(s: State, key: LeaseKey)
    requires Inv(s) && key.lease >= s.nextId
    ensures !Active(s, key)
  {
  }

  /** With nothing missing and nothing leased, every piece is complete. */
  lemma NothingLeft(s: State)
    requires Inv(s)
    requires forall x: nat :: !Missing(s, x)
    requires forall key :: !Active(s, key)
    ensures AllDone(s.pm)
  {
    forall p: nat | p < Count(s.pm.g) ensures s.pm.completed[p] {
      if !s.pm.completed[p] {
        PieceAtOk(s, p);
        var x := OutstandingByte(PieceAt(s, p), Start(s.pm.g, p), End(s.pm.g, p), s.nextId);
        PieceOfUnique(s.pm.g, x, p);
        assert Unacked(s, x);
        if !Missing(s, x) {
          var id :| id in PieceAt(s, p).leases;
          assert Active(s, LeaseKey(p, id));
        }
        assert false;
      }
    }
    AllDoneExact(s.pm);
  }

  /** If the same leases are out and nothing is missing any more, exactly the bytes that
      were missing have been acknowledged since. */
  lemma AckedAreMissing(a0: Audit, a: Audit)
    requires AuditOk(a0) && AuditOk(a) && a.s.pm.g == a0.s.pm.g
    requires Owned(a0.s, a.s, []) && forall x: nat :: !Missing(a.s, x)
    ensures forall x: nat :: x in a.acked <==> x in a0.acked || Missing(a0.s, x)
  {
    hide Inv, Unacked, Missing, Active, RangeOf, PieceOf;
    forall x: nat ensures x in a.acked <==> x in a0.acked || Missing(a0.s, x) {
      if x < a.s.pm.g.totalSize {
        BytesPartitioned(a0, x);
        BytesPartitioned(a, x);
        assert forall key :: LeasedBy(a.s, key, x) <==> LeasedBy(a0.s, key, x);
      } else {
        BeyondTheEnd(a0, x);
      }
    }
  }

  lemma BeyondTheEnd(a: Audit, x: nat)
    requires AuditOk(a) && x >= a.s.pm.g.totalSize
    ensures x !in a.acked && !Missing(a.s, x)
  {
  }
}
