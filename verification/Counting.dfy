/** The byte totals are cardinalities of the byte sets they stand for. */
module Counting {
  import opened Arith
  import opened Ranges
  import opened RangeLaws
  import opened PieceMaps
  import opened Leases
  import opened SchedulerModel
  import opened SchedulerLaws
  import opened SchedulerTheorems

  lemma {:induction false} IntervalSize(r: ByteRange)
    requires r.start <= r.end
    ensures |BytesOf(r)| == r.end - r.start
    decreases r.end - r.start
  {
    if r.start == r.end {
      assert BytesOf(r) == {};
    } else {
      var shorter := r.(end := r.end - 1);
      IntervalSize(shorter);
      assert BytesOf(r) == BytesOf(shorter) + {r.end - 1};
    }
  }

  lemma SubsetSize(a: set<nat>, b: set<nat>)
    requires a <= b
    ensures |a| <= |b|
  {
    assert b == a + (b - a);
  }

  ghost function Members(rs: seq<ByteRange>, hi: nat): set<nat> {
    set x: nat | x < hi && Has(rs, x)
  }

  /** A range set holds as many bytes as its lengths add up to. */
  lemma {:induction false} MembersSize(rs: seq<ByteRange>, hi: nat)
    requires Canonical(rs) && Within(rs, 0, hi)
    ensures |Members(rs, hi)| == Bytes(rs)
  {
    if rs == [] {
      assert Members(rs, hi) == {};
    } else {
      MembersCons(rs, hi);
      MembersSize(rs[1..], hi);
      IntervalSize(rs[0]);
    }
  }

  lemma MembersCons(rs: seq<ByteRange>, hi: nat)
    requires Canonical(rs) && Within(rs, 0, hi) && rs != []
    ensures Members(rs, hi) == BytesOf(rs[0]) + Members(rs[1..], hi) && BytesOf(rs[0]) !! Members(rs[1..], hi)
    ensures Canonical(rs[1..]) && Within(rs[1..], 0, hi)
  {
    hide Has, Canonical;
    CanonicalTail(rs);
    forall x: nat ensures x in Members(rs, hi) <==> x in BytesOf(rs[0]) || x in Members(rs[1..], hi) {
      assert Has(rs, x) <==> Covers(rs[0], x) || Has(rs[1..], x);
    }
  }

  /** First byte of piece `n`, or the end of the file. */
  function Boundary(g: Geometry, n: nat): nat {
    if n < Count(g) then Start(g, n) else g.totalSize
  }

  lemma BoundaryStep(g: Geometry, n: nat)
    requires n < Count(g)
    ensures Boundary(g, n) == Start(g, n) && Boundary(g, n + 1) == End(g, n)
  {
    if n + 1 < Count(g) {
      PiecesTile(g, n, n + 1);
    } else {
      LastPieceEnd(g);
    }
  }

  ghost function MissingBelow(s: State, hi: nat): set<nat> {
    set x: nat | x < hi && Missing(s, x)
  }

  lemma {:induction false} MissingBelowSize(s: State, n: nat)
    requires Inv(s) && n <= Count(s.pm.g)
    ensures |MissingBelow(s, Boundary(s.pm.g, n))| == SumTo(MissingCounts(s), n)
  {
    hide Inv, Count, Start, End, Has;
    var g := s.pm.g;
    if n == 0 {
      ZeroBoundary(g);
      assert MissingBelow(s, 0) == {};
    } else {
      MissingBelowSize(s, n - 1);
      BoundaryStep(g, n - 1);
      MissingStep(s, n - 1);
    }
  }

  lemma ZeroBoundary(g: Geometry)
    ensures Boundary(g, 0) == 0
  {
  }

  lemma MissingStep(s: State, p: nat)
    requires Inv(s) && p < Count(s.pm.g)
    ensures |MissingBelow(s, End(s.pm.g, p))| == |MissingBelow(s, Start(s.pm.g, p))| + MissingCounts(s)(p)
  {
    hide Inv, Count, Has;
    var g := s.pm.g;
    var lo, hi := Start(g, p), End(g, p);
    PieceBounds(g, p);
    forall x: nat ensures lo <= x < hi ==> x < g.totalSize && PieceOf(g, x) == p {
      PieceOfUnique(g, x, p);
    }
    if IsComplete(s.pm, p) {
      assert MissingBelow(s, hi) == MissingBelow(s, lo);
    } else {
      PieceAtOk(s, p);
      var rs := PieceAt(s, p).missing;
      RangesInside(PieceAt(s, p), lo, hi, s.nextId);
      MembersSize(rs, hi);
      assert MissingBelow(s, hi) == MissingBelow(s, lo) + Members(rs, hi);
      assert MissingBelow(s, lo) !! Members(rs, hi);
    }
  }

  lemma RangesInside(q: PieceState, lo: nat, hi: nat, nextId: nat)
    requires PieceOk(q, lo, hi, nextId)
    ensures Canonical(q.missing) && Within(q.missing, 0, hi)
    ensures forall x :: Has(q.missing, x) ==> lo <= x < hi
  {
  }

  /** `MissingBytes` counts the missing bytes. */
  lemma MissingBytesExact(s: State)
    requires Inv(s)
    ensures |MissingBelow(s, s.pm.g.totalSize)| == MissingBytes(s)
  {
    MissingBelowSize(s, Count(s.pm.g));
    assert Boundary(s.pm.g, Count(s.pm.g)) == s.pm.g.totalSize;
  }

  ghost function DoneBelow(g: Geometry, bits: seq<bool>, hi: nat): set<nat> {
    set x: nat | x < hi && IsSet(bits, PieceOf(g, x))
  }

  lemma {:induction false} DoneBelowSize(g: Geometry, bits: seq<bool>, n: nat)
    requires n <= Count(g)
    ensures |DoneBelow(g, bits, Boundary(g, n))| == SumTo(DoneBytes(g, bits), n)
  {
    hide Count, Start, End, PieceOf;
    if n == 0 {
      ZeroBoundary(g);
      assert DoneBelow(g, bits, 0) == {};
    } else {
      DoneBelowSize(g, bits, n - 1);
      BoundaryStep(g, n - 1);
      DoneStep(g, bits, n - 1);
    }
  }

  lemma DoneStep(g: Geometry, bits: seq<bool>, p: nat)
    requires p < Count(g)
    ensures |DoneBelow(g, bits, End(g, p))| == |DoneBelow(g, bits, Start(g, p))| + DoneBytes(g, bits)(p)
  {
    hide Count;
    var lo, hi := Start(g, p), End(g, p);
    PieceBounds(g, p);
    forall x: nat ensures lo <= x < hi ==> PieceOf(g, x) == p {
      PieceOfUnique(g, x, p);
    }
    if IsSet(bits, p) {
      IntervalSize(ByteRange(lo, hi));
      assert DoneBelow(g, bits, hi) == DoneBelow(g, bits, lo) + BytesOf(ByteRange(lo, hi));
      assert DoneBelow(g, bits, lo) !! BytesOf(ByteRange(lo, hi));
    } else {
      assert DoneBelow(g, bits, hi) == DoneBelow(g, bits, lo);
    }
  }

  lemma DoneBytesExact(g: Geometry, bits: seq<bool>)
    ensures |DoneBelow(g, bits, g.totalSize)| == SumTo(DoneBytes(g, bits), Count(g))
  {
    DoneBelowSize(g, bits, Count(g));
    assert Boundary(g, Count(g)) == g.totalSize;
  }

  /** The restored byte counter counts the bytes of the restored pieces. */
  lemma RestoredBytesExact(pm: PieceMap)
    requires PieceMaps.Valid(pm)
    ensures |RestoredBytes(pm)| == pm.completedBytes
  {
    DoneBytesExact(pm.g, pm.completed);
    assert DoneBelow(pm.g, pm.completed, pm.g.totalSize) == RestoredBytes(pm);
  }
}
