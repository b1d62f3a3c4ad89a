/** The arithmetic of the dynamic request planner in `src/scheduler.rs`: legal split
    boundaries, slot caps, share comparison and the choice of a request's end. */
module Planner {
  import opened Arith
  import opened PieceMaps

  const MAX_REQUEST_LEASES: nat := 64
  const U64_MAX: nat := 0xFFFF_FFFF_FFFF_FFFF

  /** A run of whole untouched pieces. */
  datatype Candidate = Candidate(start: nat, end: nat, firstPiece: nat, endPiece: nat)

  ghost predicate IsRun(g: Geometry, c: Candidate) {
    && c.firstPiece < c.endPiece <= Count(g)
    && c.start == Start(g, c.firstPiece) && c.end == End(g, c.endPiece - 1)
  }

  function Length(c: Candidate): nat {
    if c.start <= c.end then c.end - c.start else 0
  }

  /** Smallest multiple of the piece size reaching the configured minimum, saturated at 64 bits. */
  function EffectiveMinSplit(pieceSize: nat, configured: nat): nat {
    var ps := Max(pieceSize, 1);
    Max(Min(DivCeil(Max(configured, ps), ps) * ps, U64_MAX), ps)
  }

  /** Piece boundary `k` strictly inside the run, with at least `minSplit` bytes on both sides. */
  ghost predicate LegalCut(g: Geometry, c: Candidate, minSplit: nat, k: nat) {
    && c.firstPiece < k < c.endPiece
    && c.start + minSplit <= Start(g, k)
    && Start(g, k) + minSplit <= c.end
  }

  function LegalSplitBounds(g: Geometry, c: Candidate, minSplit: nat): Option<(nat, nat)> {
    if c.endPiece <= c.firstPiece + 1 || minSplit == 0 || Length(c) / minSplit < 2 then None
    else
      var minPieces := DivCeil(minSplit, g.pieceSize);
      var firstLegal := c.firstPiece + minPieces;
      var lastLegal: nat := Min(Max(c.end - minSplit, 0) / g.pieceSize, c.endPiece - 1);
      if firstLegal <= lastLegal then Some((firstLegal, lastLegal)) else None
  }

  lemma RunBounds(g: Geometry, c: Candidate)
    requires IsRun(g, c)
    ensures c.start < c.end && Length(c) == c.end - c.start
    ensures Start(g, c.endPiece - 1) < c.end <= Start(g, c.endPiece - 1) + g.pieceSize
  {
    PieceBounds(g, c.endPiece - 1);
    MulMono(c.firstPiece, c.endPiece - 1, g.pieceSize);
  }

  /** The bounds are exactly the interval of legal boundaries, and absent exactly when
      there is none. */
  lemma LegalBoundsExact(g: Geometry, c: Candidate, minSplit: nat)
    requires IsRun(g, c) && minSplit > 0
    ensures match LegalSplitBounds(g, c, minSplit)
            case None => forall k: nat :: !LegalCut(g, c, minSplit, k)
            case Some((lo, hi)) => lo <= hi && forall k: nat :: LegalCut(g, c, minSplit, k) <==> lo <= k <= hi
  {
    RunBounds(g, c);
    if c.firstPiece + 1 < c.endPiece && Length(c) / minSplit >= 2 {
      forall k: nat
        ensures LegalCut(g, c, minSplit, k) <==>
                c.firstPiece + DivCeil(minSplit, g.pieceSize) <= k
                && k <= Min(Max(c.end - minSplit, 0) / g.pieceSize, c.endPiece - 1)
      {
        LegalCutArithmetic(g, c, minSplit, k);
      }
    } else {
      forall k: nat ensures !LegalCut(g, c, minSplit, k) {
        TooShort(Length(c), minSplit);
      }
    }
  }

  lemma TooShort(len: nat, minSplit: nat)
    requires minSplit > 0
    ensures len / minSplit < 2 <==> len < 2 * minSplit
  {
    DivIsGreatest(len, minSplit, 2);
  }

  lemma LegalCutArithmetic(g: Geometry, c: Candidate, minSplit: nat, k: nat)
    requires IsRun(g, c) && minSplit > 0 && Length(c) / minSplit >= 2
    ensures LegalCut(g, c, minSplit, k) <==>
            c.firstPiece + DivCeil(minSplit, g.pieceSize) <= k
            && k <= Min(Max(c.end - minSplit, 0) / g.pieceSize, c.endPiece - 1)
  {
    RunBounds(g, c);
    TooShort(Length(c), minSplit);
    var ps, m := g.pieceSize, DivCeil(minSplit, g.pieceSize);
    DivIsGreatest(c.end - minSplit, ps, k);
    if k >= c.firstPiece {
      var d := k - c.firstPiece;
      assert k * ps == c.firstPiece * ps + d * ps;
      if m <= d {
        MulMono(m, d, ps);
      } else {
        MulMono(d, m - 1, ps);
      }
    }
  }

  // ----- slots and shares

  function MaxDynamicSlots(g: Geometry, c: Candidate, minSplit: nat): (cap: nat)
    requires c.firstPiece < c.endPiece
    ensures cap >= 1
    ensures cap >= 2 ==> LegalSplitBounds(g, c, minSplit).Some?
  {
    var pieceCount := c.endPiece - c.firstPiece;
    var byMinimum := if minSplit == 0 then pieceCount else Max(Length(c) / minSplit, 1);
    if byMinimum < 2 || LegalSplitBounds(g, c, minSplit).None? then 1
    else Max(Min(pieceCount, byMinimum), 1)
  }

  /** The slot cap: one where no legal split exists, and otherwise the largest number of slots
      that leaves each a piece and, on average, the minimum. */
  lemma MaxSlotsExact(g: Geometry, c: Candidate, minSplit: nat)
    requires c.firstPiece < c.endPiece
    ensures var cap := MaxDynamicSlots(g, c, minSplit);
            if LegalSplitBounds(g, c, minSplit).None? then cap == 1
            else forall k: nat :: k <= cap <==> k <= c.endPiece - c.firstPiece && k * minSplit <= Length(c)
  {
    if LegalSplitBounds(g, c, minSplit).Some? {
      forall k: nat
        ensures k <= MaxDynamicSlots(g, c, minSplit) <==> k <= c.endPiece - c.firstPiece && k * minSplit <= Length(c)
      {
        DivIsGreatest(Length(c), minSplit, k);
      }
    }
  }

  /** Bytes per slot. */
  function Share(len: nat, slots: nat): real
    requires slots > 0
  {
    len as real / slots as real
  }

  /** `compare_dynamic_shares` answers "not greater": the share of the left candidate is
      smaller, or equal with a start that is not smaller. */
  predicate NotGreater(a: Candidate, m: nat, b: Candidate, n: nat) {
    || Length(a) * n < Length(b) * m
    || (Length(a) * n == Length(b) * m && b.start <= a.start)
  }

  /** Cross-multiplication compares the shares exactly. */
  lemma CrossMultiplyExact(a: nat, m: nat, b: nat, n: nat)
    requires m > 0 && n > 0
    ensures a * n <= b * m <==> Share(a, m) <= Share(b, n)
    ensures a * n == b * m <==> Share(a, m) == Share(b, n)
  {
    var x, y, k := Share(a, m), Share(b, n), m as real * n as real;
    ShareScaled(a, m, n as real);
    ShareScaled(b, n, m as real);
    ScaleOrder(x, y, k);
    assert (a * n) as real == a as real * n as real && (b * m) as real == b as real * m as real;
  }

  lemma ShareScaled(len: nat, slots: nat, other: real)
    requires slots > 0
    ensures Share(len, slots) * (slots as real * other) == len as real * other
    ensures Share(len, slots) * (other * slots as real) == len as real * other
  {
    assert Share(len, slots) * slots as real == len as real;
    assert Share(len, slots) * (slots as real * other) == (Share(len, slots) * slots as real) * other;
  }

  lemma ScaleOrder(x: real, y: real, k: real)
    requires k > 0.0
    ensures x <= y <==> x * k <= y * k
    ensures x == y <==> x * k == y * k
  {
    if x < y {
      assert (y - x) * k > 0.0;
    } else if y < x {
      assert (x - y) * k > 0.0;
    }
  }

  /** The products of a 64-bit length and a 64-bit slot count fit in 128 bits. */
  lemma ProductsFit(len: nat, slots: nat)
    requires len <= U64_MAX && slots <= U64_MAX
    ensures len * slots < 0x1_0000_0000_0000_0000 * 0x1_0000_0000_0000_0000
  {
    MulMono(len, U64_MAX, slots);
    MulMono(slots, U64_MAX, U64_MAX);
    assert U64_MAX * slots == slots * U64_MAX;
  }

  lemma ShareShrinks(len: nat, m: nat, n: nat)
    requires 0 < m <= n
    ensures Share(len, n) <= Share(len, m)
    ensures len > 0 && m < n ==> Share(len, n) < Share(len, m)
  {
    CrossMultiplyExact(len, n, len, m);
    MulMono(m, n, len);
    if len > 0 && m < n {
      MulStep(m, n, len);
    }
  }

  // ----- the end of a request

  /** Where an even share of the run ends, rounded to the nearest legal boundary. */
  function ShareEndPiece(g: Geometry, c: Candidate, slots: nat, minSplit: nat): nat {
    if slots <= 1 then c.endPiece
    else
      match LegalSplitBounds(g, c, minSplit)
      case None => c.endPiece
      case Some((lo, hi)) =>
        var targetEnd := c.start + DivCeil(Length(c), slots);
        var ideal := targetEnd / g.pieceSize + (if targetEnd % g.pieceSize > g.pieceSize / 2 then 1 else 0);
        Min(Max(ideal, lo), hi)
  }

  datatype SplitEffect = Untouched | Adjusted | Conflict

  /** Why a request ended where it did; `Planned(false, false, Untouched)` is "none". */
  datatype Reason =
    | Planned(byteLimited: bool, leaseLimited: bool, split: SplitEffect)
    | Single
    | RecoveredOrRetried
    | FirstLeaseNotFound
    | FirstLeaseNotWhole
    | BatchDisabled
    | CandidateExhausted
    | LeaseLimit
    | SlotsReserved
    | CandidateBoundary
    | MaxRequestBytes
    | LeaseIssueFailed

  /** Last piece boundary the byte cap allows, at least one piece. */
  function ByteEndPiece(g: Geometry, c: Candidate, maxRequest: nat): nat {
    var byteBound := c.start + Max(Max(maxRequest, g.pieceSize), 1);
    if byteBound >= c.end then c.endPiece
    else Min(Max(byteBound / g.pieceSize, c.firstPiece + 1), c.endPiece)
  }

  function LeaseEndPiece(c: Candidate, desired: nat): nat {
    Min(c.firstPiece + MAX_REQUEST_LEASES, desired)
  }

  function ClampedDesired(c: Candidate, desired0: nat): nat {
    Min(Max(desired0, c.firstPiece + 1), c.endPiece)
  }

  function RawEndPiece(g: Geometry, c: Candidate, desired0: nat, maxRequest: nat): nat {
    var desired := ClampedDesired(c, desired0);
    Min(Max(Min(Min(desired, ByteEndPiece(g, c, maxRequest)), LeaseEndPiece(c, desired)), c.firstPiece + 1), c.endPiece)
  }

  /** The caps first, then the nearest legal boundary at or below them if there is one. */
  function EndPiece(g: Geometry, c: Candidate, desired0: nat, minSplit: nat, maxRequest: nat): (nat, SplitEffect) {
    var raw := RawEndPiece(g, c, desired0, maxRequest);
    if raw < c.endPiece then
      match LegalSplitBounds(g, c, minSplit)
      case None => (raw, Untouched)
      case Some((lo, hi)) =>
        if raw >= lo then (Min(raw, hi), if hi < raw then Adjusted else Untouched)
        else (raw, Conflict)
    else (raw, Untouched)
  }

  function RequestEnd(g: Geometry, c: Candidate, desired0: nat, minSplit: nat, maxRequest: nat): (nat, Reason)
    requires EndPiece(g, c, desired0, minSplit, maxRequest).0 > 0
  {
    var desired := ClampedDesired(c, desired0);
    var (endPiece, split) := EndPiece(g, c, desired0, minSplit, maxRequest);
    (Min(End(g, endPiece - 1), c.end),
     Planned(desired > ByteEndPiece(g, c, maxRequest), desired > LeaseEndPiece(c, desired), split))
  }

  /** A boundary is within the byte cap exactly when it is at or before `ByteEndPiece`. */
  lemma ByteEndExact(g: Geometry, c: Candidate, maxRequest: nat, k: nat)
    requires IsRun(g, c) && c.firstPiece < k <= c.endPiece
    ensures k <= ByteEndPiece(g, c, maxRequest) <==> End(g, k - 1) - c.start <= Max(maxRequest, g.pieceSize)
    ensures c.firstPiece < ByteEndPiece(g, c, maxRequest) <= c.endPiece
  {
    RunBounds(g, c);
    var ps := g.pieceSize;
    var bound := c.start + Max(maxRequest, ps);
    if bound >= c.end {
      EndsGrow(g, k - 1, c.endPiece - 1);
    } else {
      BoundStaysInside(g, c, bound);
      EndWithinBound(g, c, bound, k);
    }
  }

  lemma EndWithinBound(g: Geometry, c: Candidate, bound: nat, k: nat)
    requires IsRun(g, c) && c.firstPiece < k <= c.endPiece && c.start + g.pieceSize <= bound < c.end
    ensures k <= bound / g.pieceSize <==> End(g, k - 1) <= bound
    ensures c.firstPiece + 1 <= bound / g.pieceSize
  {
    var ps := g.pieceSize;
    assert (c.firstPiece + 1) * ps == c.firstPiece * ps + ps;
    DivIsGreatest(bound, ps, c.firstPiece + 1);
    BoundStaysInside(g, c, bound);
    if k < c.endPiece {
      PiecesTile(g, k - 1, c.endPiece - 1);
      assert End(g, k - 1) == k * ps;
      DivIsGreatest(bound, ps, k);
    }
  }

  lemma BoundStaysInside(g: Geometry, c: Candidate, bound: nat)
    requires IsRun(g, c) && bound < c.end
    ensures bound / g.pieceSize < c.endPiece
  {
    RunBounds(g, c);
    DivIsGreatest(bound, g.pieceSize, c.endPiece);
    assert c.endPiece * g.pieceSize == (c.endPiece - 1) * g.pieceSize + g.pieceSize;
  }

  lemma EndsGrow(g: Geometry, p: nat, q: nat)
    requires p <= q < Count(g)
    ensures End(g, p) <= End(g, q)
    ensures p < q ==> End(g, p) < End(g, q)
  {
    if p < q {
      PiecesTile(g, p, q);
      PieceBounds(g, q);
    }
  }

  /** The share boundary is the run's end or a legal cut. */
  lemma ShareEndLegal(g: Geometry, c: Candidate, slots: nat, minSplit: nat)
    requires IsRun(g, c) && minSplit > 0
    ensures var k := ShareEndPiece(g, c, slots, minSplit); k == c.endPiece || LegalCut(g, c, minSplit, k)
  {
    LegalBoundsExact(g, c, minSplit);
  }

  /** The request planned for a run: at least one piece, at most 64, within the byte cap. */
  lemma RequestEndBounds(g: Geometry, c: Candidate, slots: nat, minSplit: nat, maxRequest: nat)
    returns (desired: nat, endPiece: nat)
    requires IsRun(g, c) && minSplit > 0
    ensures desired == ShareEndPiece(g, c, slots, minSplit)
    ensures endPiece == EndPiece(g, c, desired, minSplit, maxRequest).0
    ensures c.firstPiece < desired <= c.endPiece && c.firstPiece < endPiece <= desired
    ensures endPiece - c.firstPiece <= MAX_REQUEST_LEASES
    ensures End(g, endPiece - 1) - c.start <= Max(maxRequest, g.pieceSize)
    ensures RequestEnd(g, c, desired, minSplit, maxRequest).0 == End(g, endPiece - 1)
  {
    hide LegalSplitBounds, ShareEndPiece, LegalCut, ByteEndPiece, Start, End, Count;
    desired := ShareEndPiece(g, c, slots, minSplit);
    ShareEndLegal(g, c, slots, minSplit);
    LegalBoundsExact(g, c, minSplit);
    LegalCutInside(g, c, minSplit);
    endPiece := EndPiece(g, c, desired, minSplit, maxRequest).0;
    ByteEndExact(g, c, maxRequest, c.endPiece);
    match LegalSplitBounds(g, c, minSplit) {
      case None =>
      case Some((lo, hi)) => assert LegalCut(g, c, minSplit, lo) && LegalCut(g, c, minSplit, hi);
    }
    ByteEndExact(g, c, maxRequest, endPiece);
    EndsGrow(g, endPiece - 1, c.endPiece - 1);
  }

  lemma LegalCutInside(g: Geometry, c: Candidate, minSplit: nat)
    ensures forall k: nat :: LegalCut(g, c, minSplit, k) ==> c.firstPiece < k < c.endPiece
  {
  }

  /** A request shorter than its run leaves both sides legal, unless no legal boundary
      exists or a byte or lease cap falls below the first legal one. */
  lemma ShortRequestIsLegal(g: Geometry, c: Candidate, slots: nat, minSplit: nat, maxRequest: nat)
    requires IsRun(g, c) && minSplit > 0
    ensures var desired := ShareEndPiece(g, c, slots, minSplit);
            var k := EndPiece(g, c, desired, minSplit, maxRequest).0;
            k == c.endPiece || LegalCut(g, c, minSplit, k) <==>
            || k == c.endPiece
            || (exists m: nat ::
                  && LegalCut(g, c, minSplit, m)
                  && m <= ByteEndPiece(g, c, maxRequest) && m <= c.firstPiece + MAX_REQUEST_LEASES)
  {
    hide ShareEndPiece, LegalCut, ByteEndPiece, Start, End, Count, LegalSplitBounds;
    var desired, k := RequestEndBounds(g, c, slots, minSplit, maxRequest);
    ShareEndLegal(g, c, slots, minSplit);
    LegalBoundsExact(g, c, minSplit);
    LegalCutInside(g, c, minSplit);
    ByteEndExact(g, c, maxRequest, c.endPiece);
  }

  /** The reported reason is "none" exactly when the request reaches its share's target. */
  lemma ReasonNoneExact(g: Geometry, c: Candidate, slots: nat, minSplit: nat, maxRequest: nat)
    requires IsRun(g, c) && minSplit > 0
    ensures var desired := ShareEndPiece(g, c, slots, minSplit);
            && desired > 0 && EndPiece(g, c, desired, minSplit, maxRequest).0 > 0
            && (RequestEnd(g, c, desired, minSplit, maxRequest).1 == Planned(false, false, Untouched)
                <==> RequestEnd(g, c, desired, minSplit, maxRequest).0 == End(g, desired - 1))
  {
    hide ShareEndPiece, LegalCut, ByteEndPiece, Start, End, Count, LegalSplitBounds;
    var desired, k := RequestEndBounds(g, c, slots, minSplit, maxRequest);
    ShareEndLegal(g, c, slots, minSplit);
    LegalBoundsExact(g, c, minSplit);
    LegalCutInside(g, c, minSplit);
    ByteEndExact(g, c, maxRequest, c.endPiece);
    EndsGrow(g, k - 1, desired - 1);
  }

  // ----- spreading slots over several runs

  function Sum(xs: seq<nat>): nat {
    if xs == [] then 0 else xs[0] + Sum(xs[1..])
  }

  function Ones(n: nat): seq<nat> {
    seq(n, _ => 1)
  }

  function Everyone(n: nat): seq<bool> {
    seq(n, _ => true)
  }

  /** Every candidate gets between one slot and its cap, within the budget. */
  ghost predicate Allocation(caps: seq<nat>, slots: seq<nat>, budget: nat) {
    && |slots| == |caps|
    && (forall i :: 0 <= i < |slots| ==> 1 <= slots[i] <= caps[i])
    && Sum(slots) <= budget
  }

  ghost predicate LargestAmong(cands: seq<Candidate>, slots: seq<nat>, eligible: seq<bool>, upTo: nat, b: nat)
    requires |cands| == |slots| == |eligible| && upTo <= |cands|
    requires forall i :: 0 <= i < |slots| ==> slots[i] > 0
  {
    && b < upTo && eligible[b]
    && forall j :: 0 <= j < upTo && eligible[j] ==>
         || Share(Length(cands[j]), slots[j]) < Share(Length(cands[b]), slots[b])
         || (Share(Length(cands[j]), slots[j]) == Share(Length(cands[b]), slots[b]) && cands[b].start <= cands[j].start)
  }

  datatype DynamicPlan = DynamicPlan(candidate: Candidate, slots: nat, plannedRanges: nat)

  function Lengths(cands: seq<Candidate>): seq<nat> {
    seq(|cands|, i requires 0 <= i < |cands| => Length(cands[i]))
  }

  function Caps(g: Geometry, cands: seq<Candidate>, minSplit: nat): seq<nat>
    requires forall i :: 0 <= i < |cands| ==> cands[i].firstPiece < cands[i].endPiece
  {
    seq(|cands|, i requires 0 <= i < |cands| => MaxDynamicSlots(g, cands[i], minSplit))
  }

  /** The largest share of `slots` is no larger than the largest share of `other`. */
  ghost predicate NoWorseThan(lens: seq<nat>, slots: seq<nat>, other: seq<nat>)
    requires |lens| == |slots| == |other|
    requires forall i :: 0 <= i < |slots| ==> slots[i] > 0 && other[i] > 0
  {
    forall j :: 0 <= j < |slots| ==>
      exists i :: 0 <= i < |slots| && Share(lens[i], other[i]) >= Share(lens[j], slots[j])
  }

  /** What a plan is: the chosen run has the largest share of the spread (ties to the lowest
      start). With fewer runs than slots, the spread stays within the caps and the budget and
      no such spread has a smaller largest share; otherwise every run has one slot. */
  ghost predicate PlanOk(g: Geometry, cands: seq<Candidate>, requested: nat, minSplit: nat, slots: seq<nat>,
                         chosen: nat)
    requires forall i :: 0 <= i < |cands| ==> cands[i].firstPiece < cands[i].endPiece
  {
    && |slots| == |cands| && (forall i :: 0 <= i < |slots| ==> slots[i] > 0)
    && chosen < |cands| && LargestAmong(cands, slots, Everyone(|cands|), |cands|, chosen)
    && (|cands| >= requested ==> slots == Ones(|cands|))
    && (|cands| < requested ==>
          && Allocation(Caps(g, cands, minSplit), slots, requested)
          && (Sum(slots) == requested || slots == Caps(g, cands, minSplit))
          && forall other :: Allocation(Caps(g, cands, minSplit), other, requested) ==>
               NoWorseThan(Lengths(cands), slots, other))
  }
}
