/** Runs of a session, crashes, and downloads that live through several sessions. */
module SessionRuns {
  import opened Arith
  import opened PieceMaps
  import opened Leases
  import opened SchedulerModel
  import opened SchedulerLaws
  import opened Writer
  import opened Cache
  import opened Session
  import opened Resume

  /** A finite run of the session from its first state. */
  ghost predicate Behaviour(states: seq<SessionState>, events: seq<Event>, content: nat -> byte) {
    && |states| == |events| + 1
    && forall i :: 0 <= i < |events| ==>
         && Inv(states[i].sched) && Enabled(states[i], events[i])
         && states[i + 1] == Apply(states[i], events[i], content)
  }

  /** A sound start: every piece restored as complete has its right bytes in the file, durably,
      and nothing durable is lost in the file. */
  ghost predicate SoundStart(pm: PieceMap, file: File, durable: File, content: nat -> byte) {
    && PieceMaps.Valid(pm)
    && (forall x :: x in file || x in durable ==> x < pm.g.totalSize)
    && (forall x :: x in RestoredBytes(pm) ==> Good(durable, content, x))
    && (forall x :: Good(durable, content, x) ==> Good(file, content, x))
  }

  /** Save `j` writes the bitmap of the freeze `i` it started from: no other freeze or save
      lies between them. */
  ghost predicate SavedFrom(states: seq<SessionState>, events: seq<Event>, i: nat, j: nat) {
    && i < j < |events| < |states| && events[i] == Freeze && events[j] == Save
    && (forall m :: i < m < j ==> events[m] != Freeze && events[m] != Save)
    && states[j + 1].disk == Some(TakeSnapshot(states[i].sched))
  }

  ghost predicate NoSave(events: seq<Event>, from: nat, to: nat) {
    forall m :: from <= m < to && m < |events| ==> events[m] != Save
  }

  ghost predicate NotSmaller(earlier: Option<Snapshot>, later: Option<Snapshot>) {
    earlier.Some? ==> later.Some? && Subset(earlier.value.bits, later.value.bits)
  }

  /** What a crash leaves: the file the next process reads, its part known to be durable, and
      its length. */
  datatype Remains = Remains(file: File, durable: File, length: nat)

  /** `v` was synced at `x`, or written there since. */
  ghost predicate Written(w: WriterState, x: nat, v: byte) {
    (x in w.synced && v == w.synced[x]) || (x in w.file && v == w.file[x])
  }

  /** Every synced byte survives with its synced value or that of a later write, and the next
      process reads the surviving value or the last one written; bytes that were not synced may
      hold anything. Writes stay inside the object, and a preallocated file keeps its size. */
  ghost predicate LeftBehind(s: SessionState, r: Remains, total: nat, prealloc: bool) {
    && r.durable.Keys == s.writer.synced.Keys
    && (forall x :: x in r.durable ==>
          && Written(s.writer, x, r.durable[x])
          && x in r.file && (r.file[x] == r.durable[x] || (x in s.writer.file && r.file[x] == s.writer.file[x])))
    && (forall x :: x in r.file || x in r.durable ==> x < r.length)
    && r.length <= total && (prealloc ==> r.length == total)
  }

  function ControlOf(snap: Snapshot): ControlSnapshot {
    ControlSnapshot(snap.g, Count(snap.g), snap.bits, snap.downloaded)
  }

  /** One run of the program on the download: how its session opened, and its steps. */
  datatype Life = Life(pm: PieceMap, file: File, durable: File, disk: Option<Snapshot>, watermark: nat,
                       states: seq<SessionState>, events: seq<Event>)

  ghost predicate Lived(l: Life, content: nat -> byte) {
    && Behaviour(l.states, l.events, content)
    && l.states[0] == Open(l.pm, l.file, l.durable, l.disk, l.watermark)
  }

  /** A download from scratch: nothing complete, and a file created anew. */
  ghost predicate FromScratch(l: Life) {
    && PieceMaps.Valid(l.pm) && (forall p: nat :: !IsComplete(l.pm, p))
    && l.durable == map[] && forall x :: x in l.file ==> x < l.pm.g.totalSize
  }

  /** A restart. The checkpoint on disk is deleted, or stays: the program does not touch it when
      resuming is off or it cannot be read, and goes on when deleting it fails. */
  ghost predicate Restarts(s: SessionState, l: Life) {
    FromScratch(l) && (l.disk.None? || l.disk == s.disk)
  }

  /** A resume from the checkpoint on disk, which stays there. The file is kept if any piece is
      complete and created anew otherwise. */
  ghost predicate Resumes(s: SessionState, r: Remains, l: Life) {
    && s.disk.Some? && l.disk == s.disk && PieceMaps.Valid(l.pm) && l.pm.g == s.disk.value.g
    && l.pm.completed == Resized(s.disk.value.bits, Count(l.pm.g))
    && (if l.pm.completedPieces > 0 then l.file == r.file && l.durable == r.durable
        else l.durable == map[] && forall x :: x in l.file ==> x < l.pm.g.totalSize)
  }

  /** Life `l` ended at its last state, leaving `r`, and `next` came after it. */
  ghost predicate Follows(l: Life, r: Remains, next: Life, total: nat, prealloc: bool) {
    && |l.states| == |l.events| + 1
    && var s := l.states[|l.events|];
       LeftBehind(s, r, total, prealloc) && (Restarts(s, next) || Resumes(s, r, next))
  }

  /** The download of an object of `total` bytes over any number of crashes, at any instant of
      each life. */
  ghost predicate Lives(lives: seq<Life>, remains: seq<Remains>, content: nat -> byte, total: nat, prealloc: bool) {
    && |lives| == |remains| + 1 && FromScratch(lives[0]) && lives[0].disk.None?
    && (forall i :: 0 <= i < |lives| ==> Lived(lives[i], content) && lives[i].pm.g.totalSize == total)
    && (forall i :: 0 <= i < |remains| ==> Follows(lives[i], remains[i], lives[i + 1], total, prealloc))
  }

  ghost predicate MarksNothing(disk: Option<Snapshot>) {
    disk.Some? ==> forall x: nat :: x < disk.value.g.totalSize ==> !IsSet(disk.value.bits, PieceOf(disk.value.g, x))
  }

  /** A life that creates its file anew finds no checkpoint, or one that marks no piece. */
  ghost predicate OpensClean(l: Life) {
    FromScratch(l) ==> MarksNothing(l.disk)
  }

  /** The checkpoint of life `l` at instant `k` does not outlive the file it was taken from. */
  ghost predicate SafeAt(l: Life, k: nat) {
    OpensClean(l) || !NoSave(l.events, 0, k)
  }

  /** Life `i` opened from scratch, or from the checkpoint of a trusted life that was safe at
      its end. */
  ghost predicate Trusted(lives: seq<Life>, i: nat)
    requires i < |lives|
  {
    || FromScratch(lives[i])
    || (i > 0 && Trusted(lives, i - 1) && SafeAt(lives[i - 1], |lives[i - 1].events|))
  }

  ghost predicate AlwaysHolds(lives: seq<Life>, content: nat -> byte) {
    forall i, k :: 0 <= i < |lives| && 0 <= k < |lives[i].states| ==> CheckpointHolds(lives[i].states[k], content)
  }

  /** Snapshots on disk and on their way there fit the object. */
  ghost predicate ShapeOk(s: SessionState, total: nat) {
    && s.sched.pm.g.totalSize == total
    && (s.disk.Some? ==> SnapFits(s.disk.value) && s.disk.value.g.totalSize == total)
    && (forall snap :: Pending(s.monitor, snap) ==> SnapFits(snap) && snap.g.totalSize == total)
  }

  /** The scheduler built from `pm` misses exactly the bytes outside the snapshot's pieces. */
  ghost predicate MissesOutside(pm: PieceMap, snap: Snapshot) {
    forall x: nat :: Missing(Init(pm), x) <==> x < pm.g.totalSize && !IsSet(snap.bits, PieceOf(pm.g, x))
  }
}
