/** The scheduler as a value: its fields, the elementary transitions every public
    operation is made of, and what those transitions keep on every run. */
module SchedulerModel {
  import opened Arith
  import opened Ranges
  import opened PieceMaps
  import opened Leases

  datatype State = State(
    pm: PieceMap,
    pieces: map<nat, PieceState>,
    available: seq<bool>,
    leaseCount: int,
    rangeCount: int,
    cursor: nat,
    nextId: nat,
    snapshotSeq: nat,
    stopped: bool
  )

  function PieceRange(g: Geometry, p: nat): ByteRange {
    ByteRange(Start(g, p), End(g, p))
  }

  /** Detailed state of an incomplete piece; an untouched one is missing as a whole. */
  function PieceAt(s: State, p: nat): PieceState {
    if p in s.pieces then s.pieces[p] else NewPiece(PieceRange(s.pm.g, p))
  }

  function Init(pm: PieceMap): State {
    State(pm, map[], seq(|pm.completed|, i requires 0 <= i < |pm.completed| => !pm.completed[i]),
          0, Count(pm.g) - pm.completedPieces,
          if pm.nextCandidate < Count(pm.g) then pm.nextCandidate else 0, 1, 0, false)
  }

  // ----- what the indexes are supposed to say

  function LeaseCounts(s: State): nat -> int {
    (p: nat) => if p in s.pieces then |s.pieces[p].leases| else 0
  }

  function RangeCounts(s: State): nat -> int {
    (p: nat) => if IsComplete(s.pm, p) then 0 else |PieceAt(s, p).missing|
  }

  function MissingCounts(s: State): nat -> int {
    (p: nat) => if IsComplete(s.pm, p) then 0 else Bytes(PieceAt(s, p).missing)
  }

  /** Number of missing bytes, recomputed from the range sets. */
  function MissingBytes(s: State): int {
    SumTo(MissingCounts(s), Count(s.pm.g))
  }

  ghost predicate PiecesOk(s: State) {
    forall p :: p in s.pieces ==>
      && p < Count(s.pm.g) && !IsComplete(s.pm, p)
      && PieceOk(s.pieces[p], Start(s.pm.g, p), End(s.pm.g, p), s.nextId)
  }

  /** Every running index equals its recomputation. */
  ghost predicate IndexesOk(s: State) {
    && |s.available| == Count(s.pm.g)
    && (forall p :: 0 <= p < Count(s.pm.g) ==>
          (s.available[p] <==> !IsComplete(s.pm, p) && PieceAt(s, p).missing != []))
    && s.leaseCount == SumTo(LeaseCounts(s), Count(s.pm.g))
    && s.rangeCount == SumTo(RangeCounts(s), Count(s.pm.g))
    && s.cursor < Max(Count(s.pm.g), 1)
  }

  ghost predicate Inv(s: State) {
    PieceMaps.Valid(s.pm) && PiecesOk(s) && IndexesOk(s)
  }

  // ----- which bytes are where

  ghost predicate Missing(s: State, x: nat) {
    && x < s.pm.g.totalSize
    && !IsComplete(s.pm, PieceOf(s.pm.g, x))
    && Has(PieceAt(s, PieceOf(s.pm.g, x)).missing, x)
  }

  predicate Active(s: State, key: LeaseKey) {
    key.piece in s.pieces && key.lease in s.pieces[key.piece].leases
  }

  function RangeOf(s: State, key: LeaseKey): ByteRange
    requires Active(s, key)
  {
    s.pieces[key.piece].leases[key.lease]
  }

  ghost predicate LeasedBy(s: State, key: LeaseKey, x: nat) {
    Active(s, key) && Covers(RangeOf(s, key), x)
  }

  /** Missing or leased: not acknowledged yet. */
  ghost predicate Unacked(s: State, x: nat) {
    && x < s.pm.g.totalSize
    && !IsComplete(s.pm, PieceOf(s.pm.g, x))
    && Held(PieceAt(s, PieceOf(s.pm.g, x)), x)
  }

  /** A scheduler state together with the set of bytes acknowledged so far. */
  datatype Audit = Audit(s: State, acked: set<nat>)

  ghost predicate AuditOk(a: Audit) {
    && Inv(a.s)
    && forall x: nat :: x in a.acked <==> x < a.s.pm.g.totalSize && !Unacked(a.s, x)
  }

  /** Byte `x` is missing, or out on exactly one active lease, or acknowledged, and never
      two of these. */
  ghost predicate InOnePlace(a: Audit, x: nat) {
    && (Missing(a.s, x) || (exists key :: LeasedBy(a.s, key, x)) || x in a.acked)
    && (Missing(a.s, x) ==> x !in a.acked && !exists key :: LeasedBy(a.s, key, x))
    && (x in a.acked ==> !exists key :: LeasedBy(a.s, key, x))
    && (forall k1, k2 :: LeasedBy(a.s, k1, x) && LeasedBy(a.s, k2, x) ==> k1 == k2)
  }

  // ----- elementary transitions

  datatype Op =
    | Issue(piece: nat, range: ByteRange, worker: nat)
    | Renew(key: LeaseKey, worker: nat)
    | Retain(key: LeaseKey, confirmed: nat)
    | Complete(key: LeaseKey)
    | Reclaim(key: LeaseKey)
    | Stop
    | Seek(cursor: nat)
    | Hint

  /** The range is a non-empty part of an incomplete piece. */
  predicate Issuable(s: State, p: nat, r: ByteRange) {
    && p < Count(s.pm.g) && !IsComplete(s.pm, p)
    && Start(s.pm.g, p) <= r.start < r.end <= End(s.pm.g, p)
  }

  function IssueLease(s: State, p: nat, r: ByteRange, worker: nat): (State, Option<Segment>)
    requires p < |s.available|
  {
    if s.stopped then (s, None)
    else
      var q := PieceAt(s, p);
      match IssueIn(q, r, s.nextId)
      case None => (s.(pieces := s.pieces[p := q]), None)
      case Some(q') =>
        (s.(pieces := s.pieces[p := q'],
            nextId := s.nextId + 1,
            rangeCount := s.rangeCount - |q.missing| + |q'.missing|,
            leaseCount := s.leaseCount + 1,
            available := s.available[p := q'.missing != []]),
         Some(Segment(p, s.nextId, r.start, r.end, worker, q'.attempts)))
  }

  function RenewLease(s: State, key: LeaseKey, worker: nat): (State, Option<Segment>) {
    if IsComplete(s.pm, key.piece) || !Active(s, key) then (s, None)
    else
      var q' := RenewIn(s.pieces[key.piece], key.lease, s.nextId);
      var r := RangeOf(s, key);
      (s.(pieces := s.pieces[key.piece := q'], nextId := s.nextId + 1),
       Some(Segment(key.piece, s.nextId, r.start, r.end, worker, q'.attempts)))
  }

  predicate Retainable(s: State, key: LeaseKey, confirmed: nat) {
    Active(s, key) && RangeOf(s, key).start < confirmed < RangeOf(s, key).end
  }

  function RetainPrefix(s: State, key: LeaseKey, confirmed: nat): (State, bool) {
    if Retainable(s, key, confirmed) then
      (s.(pieces := s.pieces[key.piece := RetainIn(s.pieces[key.piece], key.lease, confirmed)]), true)
    else (s, false)
  }

  function CompleteLease(s: State, key: LeaseKey): (State, bool)
    requires |s.pm.completed| == Count(s.pm.g) && s.pm.nextCandidate <= Count(s.pm.g)
  {
    if !Active(s, key) then (s, false)
    else
      var q' := CompleteIn(s.pieces[key.piece], key.lease);
      if q'.missing == [] && q'.leases == map[] then
        (s.(leaseCount := s.leaseCount - 1, pm := MarkComplete(s.pm, key.piece), pieces := s.pieces - {key.piece}),
         true)
      else
        (s.(leaseCount := s.leaseCount - 1, pieces := s.pieces[key.piece := q']), true)
  }

  function ReclaimLease(s: State, key: LeaseKey): (State, bool)
    requires Active(s, key) ==> key.piece < |s.available|
  {
    if !Active(s, key) then (s, false)
    else
      var q := s.pieces[key.piece];
      var q' := ReclaimIn(q, key.lease);
      (s.(pieces := s.pieces[key.piece := q'],
          leaseCount := s.leaseCount - 1,
          rangeCount := s.rangeCount - |q.missing| + |q'.missing|,
          available := s.available[key.piece := true],
          cursor := Min(s.cursor, key.piece)),
       true)
  }

  function Step(s: State, op: Op): State
    requires Inv(s)
  {
    match op
    case Issue(p, r, w) => if Issuable(s, p, r) then IssueLease(s, p, r, w).0 else s
    case Renew(key, w) => RenewLease(s, key, w).0
    case Retain(key, e) => RetainPrefix(s, key, e).0
    case Complete(key) => CompleteLease(s, key).0
    case Reclaim(key) => ReclaimLease(s, key).0
    case Stop => s.(stopped := true)
    case Seek(c) => if c < Count(s.pm.g) then s.(cursor := c) else s
    case Hint => s.(snapshotSeq := s.snapshotSeq + 1)
  }

  function BytesOf(r: ByteRange): set<nat> {
    set x: nat | x < r.end && Covers(r, x)
  }

  /** Bytes an operation acknowledges: the range of a completed lease or the
      confirmed prefix of a retained one. */
  function AckedBy(s: State, op: Op): set<nat> {
    match op
    case Complete(key) =>
      if Active(s, key) then BytesOf(RangeOf(s, key)) else {}
    case Retain(key, e) =>
      if Retainable(s, key, e) then BytesOf(RangeOf(s, key).(end := e)) else {}
    case _ => {}
  }

  // ----- requests

  ghost predicate InSegments(segs: seq<Segment>, x: int) {
    exists i :: 0 <= i < |segs| && Covers(segs[i].Range(), x)
  }

  ghost predicate KeyIn(segs: seq<Segment>, key: LeaseKey) {
    exists i :: 0 <= i < |segs| && segs[i].Key() == key
  }

  function SegmentBytes(segs: seq<Segment>): int {
    if segs == [] then 0 else segs[0].end - segs[0].start + SegmentBytes(segs[1..])
  }

  /** Exactly the bytes of `segs`, all missing before, stopped being missing. */
  ghost predicate GrantedBytes(s: State, s': State, segs: seq<Segment>) {
    && (forall x: nat :: Missing(s', x) <==> Missing(s, x) && !InSegments(segs, x))
    && (forall x: nat :: InSegments(segs, x) ==> Missing(s, x))
    && MissingBytes(s') == MissingBytes(s) - SegmentBytes(segs)
  }

  /** The leases of `segs`, with fresh ids, were added and no other lease changed. */
  ghost predicate GrantedLeases(s: State, s': State, segs: seq<Segment>) {
    && (forall i :: 0 <= i < |segs| ==>
          && s.nextId <= segs[i].lease < s'.nextId && segs[i].start < segs[i].end
          && Active(s', segs[i].Key()) && RangeOf(s', segs[i].Key()) == segs[i].Range())
    && (forall key :: Active(s, key) ==> Active(s', key) && RangeOf(s', key) == RangeOf(s, key))
    && (forall key :: Active(s', key) ==> Active(s, key) || KeyIn(segs, key))
  }

  /** `segs` are fresh leases on bytes that were missing in `s`; from `s` to `s'` those
      bytes moved from missing to leased and no other byte or lease changed hands. */
  ghost predicate Granted(s: State, s': State, segs: seq<Segment>) {
    && s'.pm == s.pm && s'.stopped == s.stopped && s.nextId <= s'.nextId
    && GrantedBytes(s, s', segs) && GrantedLeases(s, s', segs)
  }

  /** Each lease continues where the previous one ended, in the next piece. */
  ghost predicate GapFree(segs: seq<Segment>) {
    forall i :: 0 <= i < |segs| - 1 ==>
      segs[i + 1].start == segs[i].end && segs[i + 1].piece == segs[i].piece + 1
  }

  /** The two states differ at most in lease ids, attempt counters, which pieces have
      detailed entries, and the search cursor. */
  ghost predicate SameWork(s: State, s': State) {
    && s'.pm == s.pm && s'.stopped == s.stopped && s.nextId <= s'.nextId
    && s'.available == s.available && s'.leaseCount == s.leaseCount && s'.rangeCount == s.rangeCount
    && (forall p :: PieceAt(s', p).missing == PieceAt(s, p).missing
                 && PieceAt(s', p).leases == PieceAt(s, p).leases
                 && PieceAt(s', p).hasCompleted == PieceAt(s, p).hasCompleted)
  }
}
