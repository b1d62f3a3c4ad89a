/** Piece geometry and the completion bitmap of `src/storage/piece_map.rs`. */
module PieceMaps {
  import opened Arith

  datatype Shape = Shape(totalSize: nat, pieceSize: nat)
  type Geometry = g: Shape | g.pieceSize > 0 witness Shape(0, 1)

  function Count(g: Geometry): nat {
    DivCeil(g.totalSize, g.pieceSize)
  }

  function Start(g: Geometry, p: nat): nat {
    p * g.pieceSize
  }

  function End(g: Geometry, p: nat): nat {
    Min((p + 1) * g.pieceSize, g.totalSize)
  }

  /** The piece a byte belongs to. */
  function PieceOf(g: Geometry, x: nat): nat {
    x / g.pieceSize
  }

  lemma PieceBounds(g: Geometry, p: nat)
    requires p < Count(g)
    ensures Start(g, p) < End(g, p) <= g.totalSize
    ensures End(g, p) <= Start(g, p) + g.pieceSize
  {
    MulMono(p, Count(g) - 1, g.pieceSize);
    assert (p + 1) * g.pieceSize == p * g.pieceSize + g.pieceSize;
  }

  /** Only the last piece may be short, so pieces tile the file without gaps. */
  lemma PiecesTile(g: Geometry, p: nat, q: nat)
    requires p < q < Count(g)
    ensures End(g, p) == Start(g, p) + g.pieceSize == Start(g, p + 1) <= Start(g, q)
  {
    MulStep(p, q, g.pieceSize);
    PieceBounds(g, q);
    assert (p + 1) * g.pieceSize == p * g.pieceSize + g.pieceSize;
  }

  lemma LastPieceEnd(g: Geometry)
    requires Count(g) > 0
    ensures End(g, Count(g) - 1) == g.totalSize
  {
  }

  /** Every byte lies in exactly one piece, the one `PieceOf` names. */
  lemma PieceOfUnique(g: Geometry, x: nat, p: nat)
    ensures x < g.totalSize && p == PieceOf(g, x)
       <==> p < Count(g) && Start(g, p) <= x < End(g, p)
  {
    var ps := g.pieceSize;
    if x < g.totalSize && p == PieceOf(g, x) {
      assert p * ps <= x < p * ps + ps;
      assert (p + 1) * ps == p * ps + ps;
      if p >= Count(g) {
        MulMono(Count(g), p, ps);
      }
    }
    if p < Count(g) && Start(g, p) <= x < End(g, p) {
      assert (p + 1) * ps == p * ps + ps;
      DivUnique(x, ps, p);
    }
  }

  datatype PieceMap = PieceMap(
    g: Geometry,
    completed: seq<bool>,
    completedPieces: int,
    completedBytes: int,
    nextCandidate: nat,
    highest: Option<nat>
  )

  function IsSet(bits: seq<bool>, p: nat): bool {
    p < |bits| && bits[p]
  }

  /** Number and byte length a completed piece contributes. */
  function DoneCounts(bits: seq<bool>): nat -> int {
    (p: nat) => if IsSet(bits, p) then 1 else 0
  }

  function DoneBytes(g: Geometry, bits: seq<bool>): nat -> int {
    (p: nat) => if IsSet(bits, p) then End(g, p) - Start(g, p) else 0
  }

  /** The cached fields agree with a recount of the bits. */
  ghost predicate Valid(pm: PieceMap) {
    && |pm.completed| == Count(pm.g)
    && pm.completedPieces == SumTo(DoneCounts(pm.completed), Count(pm.g))
    && pm.completedBytes == SumTo(DoneBytes(pm.g, pm.completed), Count(pm.g))
    && pm.nextCandidate <= Count(pm.g)
    && (forall p :: 0 <= p < pm.nextCandidate ==> pm.completed[p])
    && (pm.nextCandidate < Count(pm.g) ==> !pm.completed[pm.nextCandidate])
    && IsHighest(pm.completed, pm.highest)
  }

  ghost predicate IsHighest(bits: seq<bool>, h: Option<nat>) {
    match h
    case None => forall p :: 0 <= p < |bits| ==> !bits[p]
    case Some(k) => k < |bits| && bits[k] && forall p :: k < p < |bits| ==> !bits[p]
  }

  /** Bits resized to `n`: padding beyond `n` is ignored, absent bits are clear. */
  function Resized(bits: seq<bool>, n: nat): seq<bool> {
    seq(n, p requires p >= 0 => IsSet(bits, p))
  }

  /** Restoring a map from a saved bitset. */
  method FromBitset(g: Geometry, bitset: seq<bool>) returns (pm: PieceMap)
    ensures Valid(pm) && pm.g == g
    ensures pm.completed == Resized(bitset, Count(g))
  {
    var n := Count(g);
    var completed := Resized(bitset, n);
    var pieces, bytes := 0, 0;
    var next: nat := n;
    var highest: Option<nat> := None;
    for p := 0 to n
      invariant pieces == SumTo(DoneCounts(completed), p)
      invariant bytes == SumTo(DoneBytes(g, completed), p)
      invariant next == n || next < p
      invariant forall q :: 0 <= q < (if next == n then p else next) ==> completed[q]
      invariant next < n ==> !completed[next]
      invariant IsHighest(completed[..p], highest)
    {
      assert completed[..p + 1] == completed[..p] + [completed[p]];
      if completed[p] {
        pieces := pieces + 1;
        bytes := bytes + (End(g, p) - Start(g, p));
        highest := Some(p);
      } else if next == n {
        next := p;
      }
    }
    assert completed[..n] == completed;
    pm := PieceMap(g, completed, pieces, bytes, next, highest);
  }

  function FirstClearFrom(bits: seq<bool>, from: nat): (r: nat)
    requires from <= |bits|
    ensures from <= r <= |bits|
    ensures forall p :: from <= p < r ==> bits[p]
    ensures r < |bits| ==> !bits[r]
    decreases |bits| - from
  {
    if from < |bits| && bits[from] then FirstClearFrom(bits, from + 1) else from
  }

  /** Out-of-range and repeated completions are ignored. */
  function MarkComplete(pm: PieceMap, p: nat): PieceMap
    requires |pm.completed| == Count(pm.g) && pm.nextCandidate <= Count(pm.g)
  {
    if p < Count(pm.g) && !pm.completed[p] then
      var bits := pm.completed[p := true];
      pm.(completed := bits,
          completedPieces := pm.completedPieces + 1,
          completedBytes := pm.completedBytes + (End(pm.g, p) - Start(pm.g, p)),
          highest := (match pm.highest case None => Some(p) case Some(h) => Some(Max(h, p))),
          nextCandidate := if p == pm.nextCandidate then FirstClearFrom(bits, p) else pm.nextCandidate)
    else pm
  }

  lemma MarkCompleteValid(pm: PieceMap, p: nat)
    requires Valid(pm)
    ensures Valid(MarkComplete(pm, p))
  {
    if p < Count(pm.g) && !pm.completed[p] {
      var bits := pm.completed[p := true];
      SumToUpdate(DoneCounts(pm.completed), DoneCounts(bits), p, Count(pm.g));
      SumToUpdate(DoneBytes(pm.g, pm.completed), DoneBytes(pm.g, bits), p, Count(pm.g));
    }
  }

  predicate IsComplete(pm: PieceMap, p: nat) {
    IsSet(pm.completed, p)
  }

  predicate AllDone(pm: PieceMap) {
    pm.completedPieces == Count(pm.g)
  }

  /** The counter test `all_done` is true exactly when every bit is set. */
  lemma AllDoneExact(pm: PieceMap)
    requires Valid(pm)
    ensures AllDone(pm) <==> forall p :: 0 <= p < Count(pm.g) ==> pm.completed[p]
    ensures pm.completedPieces <= Count(pm.g)
  {
    var f := DoneCounts(pm.completed);
    var gap: nat -> int := (p: nat) => 1 - f(p);
    SumToComplement(f, gap, Count(pm.g));
    SumToZero(gap, Count(pm.g));
    if AllDone(pm) {
      forall p | 0 <= p < Count(pm.g) ensures pm.completed[p] {
        assert gap(p) == 0;
      }
    }
    SumToBounds(gap, Count(pm.g));
  }

  lemma {:induction false} SumToComplement(f: nat -> int, gap: nat -> int, n: nat)
    requires forall i: nat :: i < n ==> gap(i) == 1 - f(i)
    ensures SumTo(f, n) + SumTo(gap, n) == n
  {
    if n > 0 {
      SumToComplement(f, gap, n - 1);
    }
  }

  /** Completed bytes lie below the end of the highest completed piece. */
  lemma {:induction false} DoneBytesBelow(g: Geometry, bits: seq<bool>, n: nat)
    requires n <= Count(g)
    ensures 0 <= SumTo(DoneBytes(g, bits), n) <= if n == 0 then 0 else End(g, n - 1)
  {
    if n > 0 {
      DoneBytesBelow(g, bits, n - 1);
      PieceBounds(g, n - 1);
      if n > 1 {
        PiecesTile(g, n - 2, n - 1);
      }
    }
  }
}
