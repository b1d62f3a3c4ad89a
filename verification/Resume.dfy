/** Local resume validation of `src/session/resume.rs`. */
module Resume {
  import opened Arith
  import opened PieceMaps
  import opened SchedulerLaws
  import opened Counting

  /** What the control file records. */
  datatype ControlSnapshot = ControlSnapshot(g: Geometry, pieceCount: nat, bitset: seq<bool>, downloaded: int)

  datatype Rejection =
    | FileMissing
    | MoreThanTotal
    | MoreCompletedThanDownloaded
    | PreallocatedSizeMismatch
    | TruncatedFile
    | OversizedFile
    | DownloadedBeyondFile
    | SizeMismatch

  datatype Verdict = Accept | Reject(why: Rejection)

  predicate IsMulti(ctrl: ControlSnapshot, maxConnections: nat) {
    ctrl.pieceCount > 1 && maxConnections > 1
  }

  /** The bytes of the pieces the control file marks complete. */
  function MarkedBytes(ctrl: ControlSnapshot): set<nat> {
    set x: nat | x < ctrl.g.totalSize && IsSet(Resized(ctrl.bitset, Count(ctrl.g)), PieceOf(ctrl.g, x))
  }

  /** What a rejection complains about. */
  ghost predicate Defect(ctrl: ControlSnapshot, fileLength: Option<nat>, prealloc: bool, maxConnections: nat,
                         why: Rejection)
  {
    var multi := IsMulti(ctrl, maxConnections);
    match why
    case FileMissing => fileLength.None?
    case MoreThanTotal => ctrl.downloaded > ctrl.g.totalSize
    case MoreCompletedThanDownloaded => multi && |MarkedBytes(ctrl)| > ctrl.downloaded
    case PreallocatedSizeMismatch => multi && prealloc && fileLength.Some? && fileLength.value != ctrl.g.totalSize
    case TruncatedFile =>
      multi && !prealloc && fileLength.Some? && exists x :: x in MarkedBytes(ctrl) && x >= fileLength.value
    case OversizedFile => multi && !prealloc && fileLength.Some? && fileLength.value > ctrl.g.totalSize
    case DownloadedBeyondFile => multi && !prealloc && fileLength.Some? && ctrl.downloaded > fileLength.value
    case SizeMismatch =>
      !multi && fileLength.Some? && fileLength.value != if prealloc then ctrl.g.totalSize else ctrl.downloaded
  }

  /** The order in which defects are looked for. */
  function Rank(why: Rejection): nat {
    match why
    case FileMissing => 0
    case MoreThanTotal => 1
    case MoreCompletedThanDownloaded => 2
    case PreallocatedSizeMismatch => 3
    case TruncatedFile => 4
    case OversizedFile => 5
    case DownloadedBeyondFile => 6
    case SizeMismatch => 7
  }

  /** A control file and a file of `length` bytes that belong together. With several
      connections: the object is large enough for the recorded bytes, the recorded bytes cover
      the marked pieces, and the file has the object's size or, unless preallocated, reaches
      every marked and every recorded byte without exceeding the object. */
  ghost predicate Acceptable(ctrl: ControlSnapshot, length: nat, prealloc: bool, maxConnections: nat) {
    && ctrl.downloaded <= ctrl.g.totalSize
    && if IsMulti(ctrl, maxConnections) then
         && |MarkedBytes(ctrl)| <= ctrl.downloaded
         && (if prealloc then length == ctrl.g.totalSize
             else ctrl.downloaded <= length <= ctrl.g.totalSize && forall x :: x in MarkedBytes(ctrl) ==> x < length)
       else length == if prealloc then ctrl.g.totalSize else ctrl.downloaded
  }

  function MinLength(pm: PieceMap): nat {
    match pm.highest
    case None => 0
    case Some(p) => End(pm.g, p)
  }

  /** The restored map counts the marked bytes, and the end of its highest complete piece is
      the shortest length that reaches all of them. */
  lemma MarkedByMap(ctrl: ControlSnapshot, pm: PieceMap, length: nat)
    requires PieceMaps.Valid(pm) && pm.g == ctrl.g && pm.completed == Resized(ctrl.bitset, Count(ctrl.g))
    ensures |MarkedBytes(ctrl)| == pm.completedBytes
    ensures MinLength(pm) <= length <==> forall x :: x in MarkedBytes(ctrl) ==> x < length
  {
    hide Count, Start, End, PieceOf;
    RestoredBytesExact(pm);
    assert MarkedBytes(ctrl) == RestoredBytes(pm);
    if pm.highest.Some? {
      LastMarkedByte(pm);
    }
    forall x | x in MarkedBytes(ctrl) ensures x < MinLength(pm) {
      MarkedBelowHighest(pm, x);
    }
  }

  lemma LastMarkedByte(pm: PieceMap)
    requires PieceMaps.Valid(pm) && pm.highest.Some?
    ensures MinLength(pm) > 0 && MinLength(pm) - 1 in RestoredBytes(pm)
  {
    var p := pm.highest.value;
    PieceBounds(pm.g, p);
    PieceOfUnique(pm.g, End(pm.g, p) - 1, p);
  }

  lemma MarkedBelowHighest(pm: PieceMap, x: nat)
    requires PieceMaps.Valid(pm) && x in RestoredBytes(pm)
    ensures x < MinLength(pm)
  {
    hide Count, Start, End, PieceOf;
    var p := PieceOf(pm.g, x);
    PieceOfUnique(pm.g, x, p);
    if p < pm.highest.value {
      PiecesTile(pm.g, p, pm.highest.value);
      PieceBounds(pm.g, pm.highest.value);
    }
  }

  /** Local validation accepts exactly the files that belong to the control file, consistent or
      not, and otherwise names the first defect; a multi-connection resume it accepts finds
      every byte of every marked piece inside the file. */
  method ValidateLocalResumeState(ctrl: ControlSnapshot, fileLength: Option<nat>, prealloc: bool, maxConnections: nat)
    returns (verdict: Verdict)
    ensures verdict.Accept? <==>
            fileLength.Some? && Acceptable(ctrl, fileLength.value, prealloc, maxConnections)
    ensures verdict.Accept? && IsMulti(ctrl, maxConnections) ==>
              forall x :: x in MarkedBytes(ctrl) ==> x < fileLength.value
    ensures verdict.Reject? ==>
              && Defect(ctrl, fileLength, prealloc, maxConnections, verdict.why)
              && forall d :: Rank(d) < Rank(verdict.why) ==> !Defect(ctrl, fileLength, prealloc, maxConnections, d)
  {
    hide Count, PieceOf, PieceMaps.Valid, Resized;
    if fileLength.None? {
      return Reject(FileMissing);
    }
    if ctrl.downloaded > ctrl.g.totalSize {
      return Reject(MoreThanTotal);
    }
    var actual := fileLength.value;
    if ctrl.pieceCount > 1 && maxConnections > 1 {
      var pm := FromBitset(ctrl.g, ctrl.bitset);
      MarkedByMap(ctrl, pm, actual);
      if pm.completedBytes > ctrl.downloaded {
        return Reject(MoreCompletedThanDownloaded);
      }
      if prealloc {
        if actual != ctrl.g.totalSize {
          return Reject(PreallocatedSizeMismatch);
        }
        return Accept;
      }
      var minLength := MinLength(pm);
      if actual < minLength {
        return Reject(TruncatedFile);
      }
      if actual > ctrl.g.totalSize {
        return Reject(OversizedFile);
      }
      if ctrl.downloaded > actual {
        return Reject(DownloadedBeyondFile);
      }
      return Accept;
    }
    var expected := if prealloc then ctrl.g.totalSize else ctrl.downloaded;
    if actual != expected {
      return Reject(SizeMismatch);
    }
    return Accept;
  }

  /** A snapshot taken from a piece map is accepted exactly when the file still reaches the
      end of the highest complete piece without exceeding the object, or, preallocated, has
      exactly the object's size. */
  lemma SnapshotVerdict(pm: PieceMap, pieceCount: nat, length: nat, prealloc: bool, maxConnections: nat)
    requires PieceMaps.Valid(pm) && pieceCount > 1 && maxConnections > 1
    ensures Acceptable(ControlSnapshot(pm.g, pieceCount, pm.completed, pm.completedBytes), length,
                       prealloc, maxConnections)
       <==> if prealloc then length == pm.g.totalSize else MinLength(pm) <= length <= pm.g.totalSize
  {
    hide Count, PieceOf, MarkedBytes;
    var ctrl := ControlSnapshot(pm.g, pieceCount, pm.completed, pm.completedBytes);
    assert Resized(ctrl.bitset, Count(ctrl.g)) == pm.completed;
    MarkedByMap(ctrl, pm, length);
    CompletedBelowHighest(pm);
  }

  lemma CompletedBelowHighest(pm: PieceMap)
    requires PieceMaps.Valid(pm)
    ensures 0 <= pm.completedBytes <= MinLength(pm) <= pm.g.totalSize
  {
    var n := Count(pm.g);
    var k := match pm.highest case None => 0 case Some(p) => p + 1;
    SumToTail(DoneBytes(pm.g, pm.completed), k, n);
    DoneBytesBelow(pm.g, pm.completed, k);
    if k > 0 {
      PieceBounds(pm.g, k - 1);
    }
  }

  lemma {:induction false} SumToTail(f: nat -> int, k: nat, n: nat)
    requires k <= n && forall i: nat :: k <= i < n ==> f(i) == 0
    ensures SumTo(f, n) == SumTo(f, k)
  {
    if k < n {
      SumToTail(f, k, n - 1);
    }
  }
}
