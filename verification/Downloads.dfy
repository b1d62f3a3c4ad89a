/** Whole downloads: chains of sessions separated by crashes, each resuming from the checkpoint
    on disk or starting again (`src/session/resume.rs`). */
module Downloads {
  import opened Arith
  import opened Ranges
  import opened PieceMaps
  import opened Leases
  import opened SchedulerModel
  import opened SchedulerLaws
  import opened Counting
  import opened Cache
  import opened Writer
  import opened Session
  import opened SessionLaws
  import opened Resume
  import opened SessionRuns
  import opened SessionTheorems

  // ----- reading a chain

  lemma LifeAt(lives: seq<Life>, remains: seq<Remains>, content: nat -> byte, total: nat, prealloc: bool, i: nat)
    requires Lives(lives, remains, content, total, prealloc) && i < |lives|
    ensures |lives| == |remains| + 1 && FromScratch(lives[0]) && lives[0].disk.None?
    ensures Lived(lives[i], content) && lives[i].pm.g.totalSize == total
    ensures |lives[i].states| == |lives[i].events| + 1
  {
    hide Follows, FromScratch, Open;
  }

  lemma CrashAt(lives: seq<Life>, remains: seq<Remains>, content: nat -> byte, total: nat, prealloc: bool, i: nat)
    requires Lives(lives, remains, content, total, prealloc) && i < |remains|
    ensures |lives| == |remains| + 1 && |lives[i].states| == |lives[i].events| + 1
    ensures var s := lives[i].states[|lives[i].events|];
            LeftBehind(s, remains[i], total, prealloc)
            && (Restarts(s, lives[i + 1]) || Resumes(s, remains[i], lives[i + 1]))
  {
    hide LeftBehind, Resumes, Restarts, Lived;
    assert Follows(lives[i], remains[i], lives[i + 1], total, prealloc);
  }

  // ----- every checkpoint fits the object, in every life

  lemma FrozenFits(s: State)
    requires Inv(s)
    ensures SnapFits(TakeSnapshot(s)) && TakeSnapshot(s).g == s.pm.g
  {
    hide PiecesOk, IndexesOk, Count;
  }

  lemma ShapeStep(s: SessionState, e: Event, content: nat -> byte, total: nat)
    requires Inv(s.sched) && Enabled(s, e) && ShapeOk(s, total)
    ensures ShapeOk(Apply(s, e, content), total)
  {
    hide Inv, Apply, SnapFits, TakeSnapshot, Subset;
    var s' := Apply(s, e, content);
    StepGrowsBits(s, e, content);
    if e == Save {
      SaveReplaces(s, content);
      assert Pending(s.monitor, s.monitor.snap);
    } else {
      StepKeepsDisk(s, e, content);
    }
    forall snap | Pending(s'.monitor, snap) ensures SnapFits(snap) && snap.g.totalSize == total {
      PendingStep(s, e, content, snap);
      FrozenFits(s.sched);
    }
  }

  lemma SaveReplaces(s: SessionState, content: nat -> byte)
    requires Inv(s.sched) && Enabled(s, Save)
    ensures Apply(s, Save, content).disk == Some(s.monitor.snap)
  {
    hide Inv;
  }

  lemma {:induction false} ShapeRun(states: seq<SessionState>, events: seq<Event>, content: nat -> byte, total: nat,
                                    k: nat)
    requires Behaviour(states, events, content) && ShapeOk(states[0], total) && k < |states|
    ensures ShapeOk(states[k], total)
  {
    hide Behaviour, ShapeOk, Apply, Enabled;
    BehaviourShape(states, events, content);
    if k > 0 {
      ShapeRun(states, events, content, total, k - 1);
      BehaviourStep(states, events, content, k - 1);
      ShapeStep(states[k - 1], events[k - 1], content, total);
    }
  }

  lemma {:induction false} LifeShape(lives: seq<Life>, remains: seq<Remains>, content: nat -> byte, total: nat,
                                     prealloc: bool, i: nat, k: nat)
    requires Lives(lives, remains, content, total, prealloc) && i < |lives| && k < |lives[i].states|
    ensures ShapeOk(lives[i].states[k], total)
    decreases i
  {
    hide Lives, Behaviour, FromScratch, LeftBehind, SnapFits;
    LifeAt(lives, remains, content, total, prealloc, i);
    if i > 0 {
      CrashAt(lives, remains, content, total, prealloc, i - 1);
      LifeShape(lives, remains, content, total, prealloc, i - 1, |lives[i - 1].events|);
    }
    ShapeRun(lives[i].states, lives[i].events, content, total, k);
  }

  // ----- opening soundly

  lemma ScratchIsSound(l: Life, content: nat -> byte)
    requires FromScratch(l)
    ensures SoundStart(l.pm, l.file, l.durable, content)
  {
    hide PieceMaps.Valid, PieceOf;
    assert RestoredBytes(l.pm) == {};
  }

  /** A crash keeps durable bytes right, and the next process reads them right. */
  lemma CrashKeepsGood(s: SessionState, content: nat -> byte, r: Remains, total: nat, prealloc: bool, x: nat)
    requires SessionOk(s, content) && LeftBehind(s, r, total, prealloc)
    ensures Good(s.writer.synced, content, x) ==> Good(r.durable, content, x)
    ensures Good(r.durable, content, x) ==> Good(r.file, content, x)
  {
    hide AuditOk, AttemptsOk, MonitorOk, CountOk, QueueOk, BuffersOk;
    if Good(s.writer.synced, content, x) {
      assert Good(s.writer.file, content, x);
    }
  }

  lemma CrashKeepsBacked(s: SessionState, content: nat -> byte, r: Remains, total: nat, prealloc: bool)
    requires SessionOk(s, content) && LeftBehind(s, r, total, prealloc)
    requires s.disk.Some? && CheckpointHolds(s, content)
    ensures Backed(s.disk.value, r.durable, content)
    ensures forall x :: Good(r.durable, content, x) ==> Good(r.file, content, x)
  {
    hide SessionOk, LeftBehind, Good;
    forall x: nat
      ensures Good(s.writer.synced, content, x) ==> Good(r.durable, content, x)
      ensures Good(r.durable, content, x) ==> Good(r.file, content, x)
    {
      CrashKeepsGood(s, content, r, total, prealloc, x);
    }
    BackedLater(s.disk.value, s.writer.synced, r.durable, content);
  }

  /** The checkpoint's map is rebuilt exactly. */
  lemma RebuiltMap(snap: Snapshot, pm: PieceMap)
    requires SnapFits(snap) && PieceMaps.Valid(pm) && pm.g == snap.g
    requires pm.completed == Resized(snap.bits, Count(pm.g))
    ensures snap == Snapshot(pm.g, pm.completed, pm.completedBytes)
  {
    hide Count;
    assert pm.completed == snap.bits;
  }

  lemma BackedRestores(pm: PieceMap, snap: Snapshot, file: File, content: nat -> byte)
    requires pm.g == snap.g && pm.completed == snap.bits && Backed(snap, file, content)
    ensures forall x :: x in RestoredBytes(pm) ==> Good(file, content, x)
  {
    hide Good, PieceOf;
  }

  lemma NothingComplete(pm: PieceMap)
    requires PieceMaps.Valid(pm) && pm.completedPieces <= 0
    ensures forall p: nat :: !IsComplete(pm, p)
  {
    SumToBounds(DoneCounts(pm.completed), Count(pm.g));
    SumToZero(DoneCounts(pm.completed), Count(pm.g));
    forall p: nat ensures !IsComplete(pm, p) {
      assert p < Count(pm.g) ==> DoneCounts(pm.completed)(p) == 0;
    }
  }

  /** A resume that keeps the file starts sound, with a checkpoint that holds. */
  lemma ResumeIsSound(s: SessionState, r: Remains, l: Life, content: nat -> byte, total: nat, prealloc: bool)
    requires SessionOk(s, content) && LeftBehind(s, r, total, prealloc) && Resumes(s, r, l) && !FromScratch(l)
    requires CheckpointHolds(s, content) && l.pm.g.totalSize == total
    ensures SoundStart(l.pm, l.file, l.durable, content)
    ensures CheckpointHolds(Open(l.pm, l.file, l.durable, l.disk, l.watermark), content)
  {
    hide SessionOk, PieceOf, Count, PieceMaps.Valid, Backed;
    RebuiltMap(s.disk.value, l.pm);
    if l.pm.completedPieces <= 0 {
      NothingComplete(l.pm);
    }
    CrashKeepsBacked(s, content, r, total, prealloc);
    BackedRestores(l.pm, s.disk.value, r.durable, content);
  }

  /** A checkpoint that marks no piece holds over any file. */
  lemma CleanHolds(s: SessionState, content: nat -> byte, total: nat)
    requires ShapeOk(s, total) && MarksNothing(s.disk)
    ensures CheckpointHolds(s, content)
  {
    hide PieceOf, SnapFits;
  }

  // ----- the guarantee

  lemma LifeRuns(l: Life, content: nat -> byte, k: nat)
    requires Lived(l, content) && SessionOk(l.states[0], content) && k < |l.states|
    ensures SessionOk(l.states[k], content)
    ensures CheckpointHolds(l.states[0], content) || !NoSave(l.events, 0, k) ==> CheckpointHolds(l.states[k], content)
  {
    hide SessionOk, Behaviour, CheckpointHolds, NoSave, Open;
    BehaviourOk(l.states, l.events, content, k);
    if CheckpointHolds(l.states[0], content) || !NoSave(l.events, 0, k) {
      HoldsRun(l.states, l.events, content, k);
    }
  }

  lemma ScratchLife(lives: seq<Life>, remains: seq<Remains>, content: nat -> byte, total: nat, prealloc: bool, i: nat,
                    k: nat)
    requires Lives(lives, remains, content, total, prealloc) && i < |lives| && k < |lives[i].states|
    requires FromScratch(lives[i])
    ensures SessionOk(lives[i].states[k], content)
    ensures SafeAt(lives[i], k) ==> CheckpointHolds(lives[i].states[k], content)
  {
    hide SessionOk, Lives, FromScratch, Behaviour, CheckpointHolds, MarksNothing, NoSave, ShapeOk;
    LifeAt(lives, remains, content, total, prealloc, i);
    var l := lives[i];
    ScratchIsSound(l, content);
    OpenOk(l.pm, l.file, l.durable, l.disk, l.watermark, content);
    if MarksNothing(l.disk) {
      LifeShape(lives, remains, content, total, prealloc, i, 0);
      CleanHolds(l.states[0], content, total);
    }
    LifeRuns(l, content, k);
  }

  /** What survives: a trusted life keeps the session invariant, and its checkpoint holds at
      every instant at which it is safe, so from the first save of any life that created its
      file anew, and all through one that resumed from a safe checkpoint. */
  lemma {:induction false} TrustedLife(lives: seq<Life>, remains: seq<Remains>, content: nat -> byte, total: nat,
                                       prealloc: bool, i: nat, k: nat)
    requires Lives(lives, remains, content, total, prealloc) && i < |lives| && k < |lives[i].states|
    requires Trusted(lives, i)
    ensures SessionOk(lives[i].states[k], content)
    ensures SafeAt(lives[i], k) ==> CheckpointHolds(lives[i].states[k], content)
    decreases i
  {
    hide SessionOk, Lives, FromScratch, Behaviour, CheckpointHolds, MarksNothing, NoSave, LeftBehind, Resumes,
         SafeAt, SoundStart;
    LifeAt(lives, remains, content, total, prealloc, i);
    var l := lives[i];
    if FromScratch(l) {
      ScratchLife(lives, remains, content, total, prealloc, i, k);
    } else {
      CrashAt(lives, remains, content, total, prealloc, i - 1);
      var s := lives[i - 1].states[|lives[i - 1].events|];
      TrustedLife(lives, remains, content, total, prealloc, i - 1, |lives[i - 1].events|);
      ResumeIsSound(s, remains[i - 1], l, content, total, prealloc);
      OpenOk(l.pm, l.file, l.durable, l.disk, l.watermark, content);
      LifeRuns(l, content, k);
    }
  }

  lemma {:induction false} CleanIsTrusted(lives: seq<Life>, remains: seq<Remains>, content: nat -> byte, total: nat,
                                          prealloc: bool, i: nat)
    requires Lives(lives, remains, content, total, prealloc) && i < |lives|
    requires forall j :: 0 <= j < |lives| ==> OpensClean(lives[j])
    ensures Trusted(lives, i)
    decreases i
  {
    hide Lives, FromScratch, OpensClean;
    LifeAt(lives, remains, content, total, prealloc, i);
    if i > 0 {
      CleanIsTrusted(lives, remains, content, total, prealloc, i - 1);
    }
  }

  /** A file created anew under a checkpoint that marks a piece breaks the promise at once. */
  lemma StaleBreaks(l: Life, content: nat -> byte)
    requires Lived(l, content) && FromScratch(l) && !MarksNothing(l.disk)
    ensures !CheckpointHolds(l.states[0], content)
  {
    hide Behaviour, PieceOf, SnapFits;
    BehaviourShape(l.states, l.events, content);
    var snap := l.disk.value;
    var x: nat :| x < snap.g.totalSize && IsSet(snap.bits, PieceOf(snap.g, x));
    assert !Good(l.states[0].writer.synced, content, x);
  }

  /** Crash consistency of a whole download, over any chain of crashes, resumes and restarts: at
      every instant of every life each byte of each piece the checkpoint on disk marks complete
      is durably in the file with its right value, if and only if every life that creates its
      file anew finds no checkpoint, or one that marks no piece. */
  lemma EveryCrashIsConsistent(lives: seq<Life>, remains: seq<Remains>, content: nat -> byte, total: nat,
                               prealloc: bool)
    requires Lives(lives, remains, content, total, prealloc)
    ensures AlwaysHolds(lives, content) <==> forall i :: 0 <= i < |lives| ==> OpensClean(lives[i])
  {
    hide Lives, CheckpointHolds, FromScratch, MarksNothing, Lived;
    if forall i :: 0 <= i < |lives| ==> OpensClean(lives[i]) {
      forall i, k | 0 <= i < |lives| && 0 <= k < |lives[i].states|
        ensures CheckpointHolds(lives[i].states[k], content)
      {
        CleanIsTrusted(lives, remains, content, total, prealloc, i);
        TrustedLife(lives, remains, content, total, prealloc, i, k);
      }
    } else {
      var i :| 0 <= i < |lives| && !OpensClean(lives[i]);
      LifeAt(lives, remains, content, total, prealloc, i);
      StaleBreaks(lives[i], content);
    }
  }

  // ----- resuming

  /** A backed checkpoint fits any file that holds its bytes. */
  lemma BackedFits(snap: Snapshot, file: File, content: nat -> byte, length: nat)
    requires Backed(snap, file, content) && SnapFits(snap)
    requires forall x :: x in file ==> x < length
    ensures |MarkedBytes(ControlOf(snap))| == snap.downloaded <= length
    ensures forall x :: x in MarkedBytes(ControlOf(snap)) ==> x < length
  {
    hide Count, PieceOf;
    var marked := MarkedBytes(ControlOf(snap));
    assert Resized(snap.bits, Count(snap.g)) == snap.bits;
    DoneBytesExact(snap.g, snap.bits);
    assert marked == DoneBelow(snap.g, snap.bits, snap.g.totalSize);
    IntervalSize(ByteRange(0, length));
    forall x | x in marked ensures x in BytesOf(ByteRange(0, length)) {
      assert Good(file, content, x);
    }
    SubsetSize(marked, BytesOf(ByteRange(0, length)));
  }

  lemma CheckpointAccepted(s: SessionState, content: nat -> byte, r: Remains, total: nat, prealloc: bool,
                           maxConnections: nat)
    requires SessionOk(s, content) && LeftBehind(s, r, total, prealloc)
    requires s.disk.Some? && CheckpointHolds(s, content) && s.disk.value.g.totalSize == total
    requires IsMulti(ControlOf(s.disk.value), maxConnections)
    ensures Acceptable(ControlOf(s.disk.value), r.length, prealloc, maxConnections)
  {
    hide SessionOk, Backed, Count, PieceOf, Good, MarkedBytes;
    CrashKeepsBacked(s, content, r, total, prealloc);
    BackedFits(s.disk.value, r.durable, content, r.length);
  }

  /** The scheduler rebuilt from a checkpoint misses exactly the bytes outside its pieces. */
  lemma RebuiltMisses(snap: Snapshot, pm: PieceMap)
    requires SnapFits(snap) && PieceMaps.Valid(pm) && pm.g == snap.g
    requires pm.completed == Resized(snap.bits, Count(pm.g))
    ensures MissesOutside(pm, snap)
  {
    hide Missing, Count, PieceOf, SnapFits;
    RebuiltMap(snap, pm);
    InitAudit(pm);
  }

  /** Save and resume: a crash at any instant at which a trusted life is safe leaves a checkpoint
      that passes local validation against the file left behind, and a life that resumes from
      it misses exactly the bytes outside its pieces. */
  lemma CrashThenResume(lives: seq<Life>, remains: seq<Remains>, content: nat -> byte, total: nat, prealloc: bool,
                        maxConnections: nat, i: nat)
    requires Lives(lives, remains, content, total, prealloc) && i < |remains| < |lives|
    requires Trusted(lives, i) && SafeAt(lives[i], |lives[i].events|) && |lives[i].events| < |lives[i].states|
    ensures var s := lives[i].states[|lives[i].events|];
            s.disk.Some? && IsMulti(ControlOf(s.disk.value), maxConnections) ==>
              && Acceptable(ControlOf(s.disk.value), remains[i].length, prealloc, maxConnections)
              && (Resumes(s, remains[i], lives[i + 1]) ==> MissesOutside(lives[i + 1].pm, s.disk.value))
  {
    hide SessionOk, Lives, LeftBehind, Acceptable, IsMulti, MissesOutside, PieceMaps.Valid, Count, Backed, SafeAt,
         Trusted, SnapFits;
    CrashAt(lives, remains, content, total, prealloc, i);
    var s := lives[i].states[|lives[i].events|];
    TrustedLife(lives, remains, content, total, prealloc, i, |lives[i].events|);
    LifeShape(lives, remains, content, total, prealloc, i, |lives[i].events|);
    if s.disk.Some? && IsMulti(ControlOf(s.disk.value), maxConnections) {
      CheckpointAccepted(s, content, remains[i], total, prealloc, maxConnections);
      if Resumes(s, remains[i], lives[i + 1]) {
        RebuiltMisses(s.disk.value, lives[i + 1].pm);
      }
    }
  }

  // ----- the end of a download

  /** The download is right: when every piece is complete in a trusted life, every byte of the
      object is in the file with its right value, and durably so once the writer has closed. */
  lemma FinishedDownload(lives: seq<Life>, remains: seq<Remains>, content: nat -> byte, total: nat, prealloc: bool,
                         i: nat, k: nat)
    requires Lives(lives, remains, content, total, prealloc) && i < |lives| && k < |lives[i].states|
    requires Trusted(lives, i) && AllDone(lives[i].states[k].sched.pm)
    ensures var s := lives[i].states[k];
            forall x: nat :: x < total ==>
              Good(s.writer.file, content, x) && (s.closed ==> Good(s.writer.synced, content, x))
  {
    hide SessionOk, Lives, Trusted, AllDone, Good;
    TrustedLife(lives, remains, content, total, prealloc, i, k);
    LifeShape(lives, remains, content, total, prealloc, i, k);
    AllDoneIsRight(lives[i].states[k], content);
  }
}
