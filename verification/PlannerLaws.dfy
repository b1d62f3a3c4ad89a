/** What the planner's choices mean: the split minimum, the end of a share and the end of a
    request, each characterised without the arithmetic that computes it. */
module PlannerLaws {
  import opened Arith
  import opened PieceMaps
  import opened Planner

  /** `k` whole pieces reach the configured minimum and fit in 64 bits. */
  predicate Reaching(pieceSize: nat, configured: nat, k: nat) {
    k >= 1 && configured <= k * pieceSize <= U64_MAX
  }

  /** The split minimum is the least positive number of whole pieces that reaches the configured
      one; where none fits in 64 bits it is the largest 64-bit number, or one larger piece. */
  lemma MinSplitExact(pieceSize: nat, configured: nat)
    requires pieceSize > 0
    ensures var r := EffectiveMinSplit(pieceSize, configured);
            if exists k: nat :: Reaching(pieceSize, configured, k)
            then exists k: nat ::
              && Reaching(pieceSize, configured, k) && r == k * pieceSize
              && forall j: nat :: Reaching(pieceSize, configured, j) ==> k <= j
            else r == Max(U64_MAX, pieceSize)
  {
    var m := DivCeil(Max(configured, pieceSize), pieceSize);
    CeilIsLeast(Max(configured, pieceSize), pieceSize, m);
    CeilIsLeast(Max(configured, pieceSize), pieceSize, 0);
    MulMono(1, m, pieceSize);
    forall j: nat | Reaching(pieceSize, configured, j) ensures m <= j && Reaching(pieceSize, configured, m) {
      MulMono(1, j, pieceSize);
      CeilIsLeast(Max(configured, pieceSize), pieceSize, j);
      MulMono(m, j, pieceSize);
    }
    if m * pieceSize <= U64_MAX {
      assert Reaching(pieceSize, configured, m);
    }
  }

  lemma CeilIsLeast(x: nat, d: nat, k: nat)
    requires d > 0
    ensures DivCeil(x, d) <= k <==> x <= k * d
  {
    var q := DivCeil(x, d);
    assert q * d >= x && (q == 0 || (q - 1) * d < x);
    if q <= k {
      MulMono(q, k, d);
    } else {
      MulMono(k, q - 1, d);
    }
  }

  // ----- the end of a share

  function Distance(a: int, b: int): nat {
    if a <= b then b - a else a - b
  }

  /** Where an even share of the run would end. */
  function ShareTarget(c: Candidate, slots: nat): nat
    requires slots > 0
  {
    c.start + DivCeil(Length(c), slots)
  }

  /** Boundary `k` is nearer to `t` than `m`, or as near and not above it. */
  predicate Nearer(g: Geometry, t: nat, k: nat, m: nat) {
    var dk, dm := Distance(Start(g, k), t), Distance(Start(g, m), t);
    dk < dm || (dk == dm && k <= m)
  }

  /** Boundary `k` is nearest to `t` among the legal ones, the lower of two as near. */
  ghost predicate NearestCut(g: Geometry, c: Candidate, minSplit: nat, t: nat, k: nat) {
    && LegalCut(g, c, minSplit, k)
    && forall m: nat :: LegalCut(g, c, minSplit, m) ==> Nearer(g, t, k, m)
  }

  function Rounded(t: nat, d: nat): nat
    requires d > 0
  {
    t / d + (if t % d > d / 2 then 1 else 0)
  }

  /** Of two neighbours `lo` and `lo + d` around `lo + r`, rounding takes the nearer one, which
      is nearer than anything beyond them. */
  lemma NearerNeighbour(lo: nat, r: nat, d: nat, other: nat)
    requires r < d && (other <= lo - d || other == lo || other == lo + d || other >= lo + 2 * d)
    ensures var t, near := lo + r, if r > d / 2 then lo + d else lo;
            Distance(near, t) < Distance(other, t) || (Distance(near, t) == Distance(other, t) && near <= other)
  {
  }

  lemma BoundaryOrder(g: Geometry, k: nat, m: nat)
    ensures Start(g, k + 1) == Start(g, k) + g.pieceSize
    ensures k < m ==> Start(g, k) + g.pieceSize <= Start(g, m)
    ensures m < k ==> Start(g, m) + g.pieceSize <= Start(g, k)
  {
    assert (k + 1) * g.pieceSize == k * g.pieceSize + g.pieceSize;
    if k < m {
      MulStep(k, m, g.pieceSize);
    } else if m < k {
      MulStep(m, k, g.pieceSize);
    }
  }

  lemma BetweenBoundaries(g: Geometry, t: nat)
    ensures t == Start(g, t / g.pieceSize) + t % g.pieceSize && t % g.pieceSize < g.pieceSize
  {
  }

  /** Rounding finds the boundary nearest to `t`, the lower of two as near. */
  lemma RoundIsNearest(g: Geometry, t: nat, m: nat)
    ensures Nearer(g, t, Rounded(t, g.pieceSize), m)
  {
    hide Distance, Start;
    var q := t / g.pieceSize;
    BetweenBoundaries(g, t);
    BoundaryOrder(g, q, m);
    BoundaryOrder(g, q + 1, m);
    NearerNeighbour(Start(g, q), t % g.pieceSize, g.pieceSize, Start(g, m));
  }

  /** One boundary above the rounded one is past `t`, one below is not. */
  lemma RoundSides(g: Geometry, t: nat)
    ensures var k := Rounded(t, g.pieceSize); t < Start(g, k + 1) && (k > 0 ==> Start(g, k - 1) <= t)
  {
    hide Start;
    var q := t / g.pieceSize;
    BetweenBoundaries(g, t);
    if q > 0 {
      BoundaryOrder(g, q, q - 1);
    }
    BoundaryOrder(g, q + 1, q);
  }

  /** Clamping the rounded boundary to an interval gives the nearest one inside. */
  lemma ClampIsNearest(g: Geometry, t: nat, lo: nat, hi: nat, m: nat)
    requires lo <= m <= hi
    ensures Nearer(g, t, Min(Max(Rounded(t, g.pieceSize), lo), hi), m)
  {
    hide Rounded, Start;
    var ideal := Rounded(t, g.pieceSize);
    RoundIsNearest(g, t, m);
    RoundSides(g, t);
    BoundaryOrder(g, lo, m);
    BoundaryOrder(g, hi, m);
    BoundaryOrder(g, ideal + 1, lo);
    if ideal > hi {
      BoundaryOrder(g, ideal - 1, hi);
    }
  }

  /** The end of a share: the end of the run for a single slot or without a legal boundary, and
      otherwise the legal boundary nearest to an even share. */
  lemma ShareEndExact(g: Geometry, c: Candidate, slots: nat, minSplit: nat)
    requires IsRun(g, c) && minSplit > 0
    ensures var k := ShareEndPiece(g, c, slots, minSplit);
            if slots <= 1 || (forall m: nat :: !LegalCut(g, c, minSplit, m)) then k == c.endPiece
            else NearestCut(g, c, minSplit, ShareTarget(c, slots), k)
  {
    LegalBoundsExact(g, c, minSplit);
    if slots > 1 && LegalSplitBounds(g, c, minSplit).Some? {
      var (lo, hi) := LegalSplitBounds(g, c, minSplit).value;
      WithinIsNearest(g, c, minSplit, ShareTarget(c, slots), lo, hi);
    }
  }

  lemma WithinIsNearest(g: Geometry, c: Candidate, minSplit: nat, t: nat, lo: nat, hi: nat)
    requires lo <= hi && forall m: nat :: LegalCut(g, c, minSplit, m) <==> lo <= m <= hi
    ensures LegalCut(g, c, minSplit, lo)
    ensures NearestCut(g, c, minSplit, t, Min(Max(Rounded(t, g.pieceSize), lo), hi))
  {
    hide LegalCut, Nearer, Rounded;
    forall m: nat | LegalCut(g, c, minSplit, m)
      ensures Nearer(g, t, Min(Max(Rounded(t, g.pieceSize), lo), hi), m)
    {
      ClampIsNearest(g, t, lo, hi, m);
    }
  }

  // ----- the end of a request

  /** A request from the run's start up to boundary `m` respects target, byte cap and lease cap. */
  ghost predicate WithinCaps(g: Geometry, c: Candidate, desired: nat, maxRequest: nat, m: nat) {
    && c.firstPiece < m <= desired && m <= c.endPiece && m - c.firstPiece <= MAX_REQUEST_LEASES
    && End(g, m - 1) - c.start <= Max(maxRequest, g.pieceSize)
  }

  ghost predicate LegalWithin(g: Geometry, c: Candidate, desired: nat, minSplit: nat, maxRequest: nat, m: nat) {
    WithinCaps(g, c, desired, maxRequest, m) && (m == c.endPiece || LegalCut(g, c, minSplit, m))
  }

  /** The end of a request is the last boundary within target and caps that is legal or ends the
      run; if there is none, the last one within them at all. */
  lemma EndExact(g: Geometry, c: Candidate, slots: nat, minSplit: nat, maxRequest: nat)
    requires IsRun(g, c) && minSplit > 0
    ensures var desired := ShareEndPiece(g, c, slots, minSplit);
            var k := EndPiece(g, c, desired, minSplit, maxRequest).0;
            && WithinCaps(g, c, desired, maxRequest, k)
            && (forall m: nat :: LegalWithin(g, c, desired, minSplit, maxRequest, m) ==>
                  m <= k && LegalWithin(g, c, desired, minSplit, maxRequest, k))
            && (!LegalWithin(g, c, desired, minSplit, maxRequest, k) ==>
                  forall m: nat :: WithinCaps(g, c, desired, maxRequest, m) ==> m <= k)
  {
    hide ShareEndPiece, LegalCut, ByteEndPiece, Start, End, Count, LegalSplitBounds;
    var desired, k := RequestEndBounds(g, c, slots, minSplit, maxRequest);
    LegalBoundsExact(g, c, minSplit);
    LegalCutInside(g, c, minSplit);
    ByteEndExact(g, c, maxRequest, c.endPiece);
    forall m: nat | WithinCaps(g, c, desired, maxRequest, m) ensures m <= RawEndPiece(g, c, desired, maxRequest) {
      ByteEndExact(g, c, maxRequest, m);
    }
  }

  /** What each part of the reason says: the byte cap or the lease cap lies before the target;
      the end was moved back to a legal boundary; or the caps allow no legal boundary though the
      run has one. */
  lemma ReasonExact(g: Geometry, c: Candidate, slots: nat, minSplit: nat, maxRequest: nat)
    requires IsRun(g, c) && minSplit > 0
    ensures var desired := ShareEndPiece(g, c, slots, minSplit);
            && desired > 0 && EndPiece(g, c, desired, minSplit, maxRequest).0 > 0
            && var (k, reason) := (EndPiece(g, c, desired, minSplit, maxRequest).0,
                                   RequestEnd(g, c, desired, minSplit, maxRequest).1);
               && reason.Planned?
               && (reason.byteLimited <==> End(g, desired - 1) - c.start > Max(maxRequest, g.pieceSize))
               && (reason.leaseLimited <==> desired - c.firstPiece > MAX_REQUEST_LEASES)
               && (reason.split == Adjusted <==> exists m: nat :: WithinCaps(g, c, desired, maxRequest, m) && m > k)
               && (reason.split == Conflict <==> !LegalWithin(g, c, desired, minSplit, maxRequest, k)
                                                 && exists m: nat :: LegalCut(g, c, minSplit, m))
  {
    hide ShareEndPiece, LegalCut, ByteEndPiece, Start, End, Count, LegalSplitBounds;
    var desired, k := RequestEndBounds(g, c, slots, minSplit, maxRequest);
    LegalBoundsExact(g, c, minSplit);
    LegalCutInside(g, c, minSplit);
    ByteEndExact(g, c, maxRequest, desired);
    ByteEndExact(g, c, maxRequest, c.endPiece);
    var raw := RawEndPiece(g, c, desired, maxRequest);
    ByteEndExact(g, c, maxRequest, raw);
    assert WithinCaps(g, c, desired, maxRequest, raw);
    forall m: nat | WithinCaps(g, c, desired, maxRequest, m) ensures m <= raw {
      ByteEndExact(g, c, maxRequest, m);
    }
    match LegalSplitBounds(g, c, minSplit) {
      case None =>
      case Some((lo, hi)) => assert LegalCut(g, c, minSplit, lo) && LegalCut(g, c, minSplit, hi);
    }
  }
}
