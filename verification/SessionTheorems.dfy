/** Whole-run theorems about a session: crash consistency, resume soundness and the
    conservation of received bytes. */
module SessionTheorems {
  import opened Arith
  import opened Ranges
  import opened PieceMaps
  import opened Leases
  import opened SchedulerModel
  import opened SchedulerLaws
  import opened SchedulerTheorems
  import opened Counting
  import opened MapSums
  import opened Cache
  import opened Writer
  import opened WriterLaws
  import opened Session
  import opened SessionLaws
  import opened Resume
  import opened SessionRuns

  lemma OpenOk(pm: PieceMap, file: File, durable: File, disk: Option<Snapshot>, watermark: nat, content: nat -> byte)
    requires SoundStart(pm, file, durable, content)
    ensures SessionOk(Open(pm, file, durable, disk, watermark), content)
  {
    hide AuditOk, RestoredBytes, Good, Count;
    InitAudit(pm);
    RestoredBytesExact(pm);
    assert Forwards(map[]) == map[];
  }

  lemma BehaviourStep(states: seq<SessionState>, events: seq<Event>, content: nat -> byte, i: nat)
    requires Behaviour(states, events, content) && i < |events|
    ensures |states| == |events| + 1 && Inv(states[i].sched) && Enabled(states[i], events[i])
    ensures states[i + 1] == Apply(states[i], events[i], content)
  {
    hide Inv, Enabled, Apply;
  }

  lemma BehaviourShape(states: seq<SessionState>, events: seq<Event>, content: nat -> byte)
    requires Behaviour(states, events, content)
    ensures |states| == |events| + 1
  {
    hide Inv, Enabled, Apply;
  }

  lemma {:induction false} BehaviourOk(states: seq<SessionState>, events: seq<Event>, content: nat -> byte, k: nat)
    requires Behaviour(states, events, content) && SessionOk(states[0], content) && k < |states|
    ensures SessionOk(states[k], content)
  {
    hide SessionOk, Apply, Enabled;
    if k > 0 {
      BehaviourOk(states, events, content, k - 1);
      StepKeeps(states[k - 1], events[k - 1], content);
      assert states[k - 1 + 1] == Apply(states[k - 1], events[k - 1], content);
    }
  }

  // ----- checkpoints

  lemma PendingStep(s: SessionState, e: Event, content: nat -> byte, snap: Snapshot)
    requires Inv(s.sched) && Enabled(s, e) && Pending(Apply(s, e, content).monitor, snap)
    ensures Pending(s.monitor, snap) || (e == Freeze && snap == TakeSnapshot(s.sched))
  {
    hide Inv, Step, Exec, CompleteLease, RetainPrefix, AckedBy, PartlyFlushed, AfterFlush, Chunk;
  }

  /** A pending snapshot is the one taken at the last freeze, and is pending since. */
  lemma {:induction false} PendingOrigin(states: seq<SessionState>, events: seq<Event>, content: nat -> byte, k: nat,
                                         snap: Snapshot)
    returns (i: nat)
    requires Behaviour(states, events, content) && states[0].monitor.Idle?
    requires k < |states| && Pending(states[k].monitor, snap)
    ensures i < k && events[i] == Freeze && snap == TakeSnapshot(states[i].sched)
    ensures forall m :: i < m <= k ==> Pending(states[m].monitor, snap)
    decreases k
  {
    hide Apply, Enabled, TakeSnapshot;
    var s, e := states[k - 1], events[k - 1];
    assert states[k - 1 + 1] == Apply(s, e, content);
    PendingStep(s, e, content, snap);
    if Pending(s.monitor, snap) {
      i := PendingOrigin(states, events, content, k - 1, snap);
    } else {
      i := k - 1;
    }
  }

  /** Completions after the freeze never leak into a checkpoint: what a save writes is the
      bitmap of the freeze it started from. */
  lemma SavedIsFrozen(states: seq<SessionState>, events: seq<Event>, content: nat -> byte, j: nat)
    requires Behaviour(states, events, content) && states[0].monitor.Idle?
    requires j < |events| && events[j] == Save
    ensures exists i: nat :: SavedFrom(states, events, i, j)
  {
    hide TakeSnapshot;
    assert states[j + 1] == Apply(states[j], Save, content);
    var i := PendingOrigin(states, events, content, j, states[j].monitor.snap);
    forall m | i < m < j ensures events[m] != Freeze && events[m] != Save {
      PendingBusy(states[m], events[m], content, states[j].monitor.snap, states[m + 1]);
    }
    assert SavedFrom(states, events, i, j);
  }

  lemma PendingBusy(s: SessionState, e: Event, content: nat -> byte, snap: Snapshot, s': SessionState)
    requires Inv(s.sched) && Enabled(s, e) && s' == Apply(s, e, content)
    requires Pending(s.monitor, snap) && Pending(s'.monitor, snap)
    ensures e != Freeze && e != Save
  {
    hide Inv, Step;
  }

  lemma StepKeepsDisk(s: SessionState, e: Event, content: nat -> byte)
    requires Inv(s.sched) && Enabled(s, e) && e != Save
    ensures Apply(s, e, content).disk == s.disk
  {
    hide Inv, Step, Exec, CompleteLease, RetainPrefix, AckedBy, PartlyFlushed, AfterFlush, Chunk;
  }

  lemma {:induction false} DiskSince(states: seq<SessionState>, events: seq<Event>, content: nat -> byte,
                                     from: nat, k: nat)
    requires Behaviour(states, events, content) && from <= k < |states| && NoSave(events, from, k)
    ensures states[k].disk == states[from].disk
    decreases k
  {
    hide Behaviour, Apply, Enabled;
    BehaviourShape(states, events, content);
    if from < k {
      DiskSince(states, events, content, from, k - 1);
      BehaviourStep(states, events, content, k - 1);
      StepKeepsDisk(states[k - 1], events[k - 1], content);
    }
  }

  /** The checkpoint on disk is the one the session found at its start until the first save,
      and from then on the bitmap of the freeze of the last save, whatever barriers and saves
      failed in between. */
  lemma DiskOrigin(states: seq<SessionState>, events: seq<Event>, content: nat -> byte, k: nat)
    requires Behaviour(states, events, content) && states[0].monitor.Idle? && k < |states|
    ensures NoSave(events, 0, k) ==> states[k].disk == states[0].disk
    ensures !NoSave(events, 0, k) ==>
              exists i: nat, j: nat :: SavedFrom(states, events, i, j) && j < k && NoSave(events, j + 1, k)
                          && states[k].disk == Some(TakeSnapshot(states[i].sched))
  {
    hide TakeSnapshot, Behaviour, SavedFrom;
    BehaviourShape(states, events, content);
    if NoSave(events, 0, k) {
      DiskSince(states, events, content, 0, k);
    } else {
      var j := LastSave(events, k);
      SavedIsFrozen(states, events, content, j);
      var i :| SavedFrom(states, events, i, j);
      DiskSince(states, events, content, j + 1, k);
      SavedDisk(states, events, i, j);
    }
  }

  lemma SavedDisk(states: seq<SessionState>, events: seq<Event>, i: nat, j: nat)
    requires SavedFrom(states, events, i, j)
    ensures i < j && j + 1 < |states| && states[j + 1].disk == Some(TakeSnapshot(states[i].sched))
  {
  }

  lemma {:induction false} LastSave(events: seq<Event>, k: nat) returns (j: nat)
    requires k <= |events| && !NoSave(events, 0, k)
    ensures j < k && events[j] == Save && NoSave(events, j + 1, k)
    decreases k
  {
    if events[k - 1] == Save {
      j := k - 1;
    } else {
      j := LastSave(events, k - 1);
    }
  }

  // ----- what a checkpoint promises

  lemma StepKeepsSynced(s: SessionState, e: Event, content: nat -> byte, x: nat)
    requires SessionOk(s, content) && Inv(s.sched) && Enabled(s, e) && Good(s.writer.synced, content, x)
    ensures Good(Apply(s, e, content).writer.synced, content, x)
  {
    hide AuditOk, Inv, AttemptsOk, MonitorOk, CountOk, WriterOk, CmdOk, Exec, Step, CompleteLease, RetainPrefix,
         AckedBy, Good, AfterFlush, PartlyFlushed, Chunk;
    match e {
      case WriterStep => ExecOk(s.writer, s.queue[0], content, s.sched.pm.g.totalSize);
      case Close => ClosedWriter(s.writer, content, s.sched.pm.g.totalSize);
      case _ =>
    }
  }

  /** A checkpoint that holds keeps holding, and a save always writes one that does. */
  lemma HoldsStep(s: SessionState, e: Event, content: nat -> byte)
    requires SessionOk(s, content) && Inv(s.sched) && Enabled(s, e) && (e == Save || CheckpointHolds(s, content))
    ensures CheckpointHolds(Apply(s, e, content), content)
  {
    hide SessionOk, Inv, Apply, Good, SnapFits, PieceOf;
    if e == Save {
      SaveWrites(s, content);
    } else {
      StepKeepsDisk(s, e, content);
      forall x: nat | Good(s.writer.synced, content, x) ensures Good(Apply(s, e, content).writer.synced, content, x) {
        StepKeepsSynced(s, e, content, x);
      }
    }
  }

  lemma SaveWrites(s: SessionState, content: nat -> byte)
    requires SessionOk(s, content) && Inv(s.sched) && Enabled(s, Save)
    ensures Apply(s, Save, content).disk == Some(s.monitor.snap)
    ensures CheckpointHolds(Apply(s, Save, content), content) && TrackedOk(Apply(s, Save, content))
  {
    hide AuditOk, Inv, FilesOk, AttemptsOk, CountOk, Backed, SnapFits, Subset;
  }

  lemma {:induction false} HoldsRun(states: seq<SessionState>, events: seq<Event>, content: nat -> byte, k: nat)
    requires Behaviour(states, events, content) && SessionOk(states[0], content) && k < |states|
    requires CheckpointHolds(states[0], content) || !NoSave(events, 0, k)
    ensures CheckpointHolds(states[k], content)
  {
    hide Behaviour, SessionOk, CheckpointHolds, Apply, Enabled;
    BehaviourShape(states, events, content);
    if k > 0 {
      BehaviourStep(states, events, content, k - 1);
      BehaviourOk(states, events, content, k - 1);
      if events[k - 1] != Save {
        HoldsRun(states, events, content, k - 1);
      }
      HoldsStep(states[k - 1], events[k - 1], content);
    }
  }

  /** Crash consistency of one run from any sound start, whatever checkpoint lies on disk: each
      byte of each piece the checkpoint marks complete is durably in the file with its right
      value at every moment if and only if it is so at the start, and in any case from the first
      save on. */
  lemma CrashConsistency(pm: PieceMap, file: File, durable: File, disk: Option<Snapshot>, watermark: nat,
                         content: nat -> byte, states: seq<SessionState>, events: seq<Event>)
    requires SoundStart(pm, file, durable, content) && Behaviour(states, events, content)
    requires states[0] == Open(pm, file, durable, disk, watermark)
    ensures (forall k :: 0 <= k < |states| ==> CheckpointHolds(states[k], content))
       <==> CheckpointHolds(states[0], content)
    ensures forall k: nat :: k < |states| && !NoSave(events, 0, k) ==> CheckpointHolds(states[k], content)
  {
    hide Behaviour, SessionOk, Open, CheckpointHolds, SoundStart, NoSave;
    BehaviourShape(states, events, content);
    OpenOk(pm, file, durable, disk, watermark, content);
    forall k: nat | k < |states| && (CheckpointHolds(states[0], content) || !NoSave(events, 0, k))
      ensures CheckpointHolds(states[k], content)
    {
      HoldsRun(states, events, content, k);
    }
  }

  // ----- checkpoints of one session

  lemma TrackedStep(s: SessionState, e: Event, content: nat -> byte)
    requires SessionOk(s, content) && Inv(s.sched) && Enabled(s, e) && (e == Save || TrackedOk(s))
    ensures TrackedOk(Apply(s, e, content))
  {
    hide SessionOk, Inv, Apply, SnapOk, Subset, TakeSnapshot;
    if e == Save {
      SaveWrites(s, content);
    } else {
      var s' := Apply(s, e, content);
      StepKeepsDisk(s, e, content);
      StepKeepsSaved(s, e, content);
      StepGrowsBits(s, e, content);
      if s.disk.Some? {
        SnapOkLater(s, s', s.disk.value);
        forall snap | Pending(s'.monitor, snap) ensures Subset(s.disk.value.bits, snap.bits) {
          PendingStep(s, e, content, snap);
          FrozenCovers(s, s.disk.value);
        }
      }
    }
  }

  lemma FrozenCovers(s: SessionState, snap: Snapshot)
    requires SnapOk(s, snap)
    ensures Subset(snap.bits, TakeSnapshot(s.sched).bits)
  {
  }

  lemma StepKeepsSaved(s: SessionState, e: Event, content: nat -> byte)
    requires Inv(s.sched) && Enabled(s, e) && e != Save
    ensures Apply(s, e, content).tracker.lastSaved == s.tracker.lastSaved
  {
    hide Inv, Step, Exec, CompleteLease, RetainPrefix, AckedBy, PartlyFlushed, AfterFlush, Chunk;
  }

  lemma StepGrowsBits(s: SessionState, e: Event, content: nat -> byte)
    requires Inv(s.sched) && Enabled(s, e)
    ensures var s' := Apply(s, e, content);
            s'.sched.pm.g == s.sched.pm.g && Subset(s.sched.pm.completed, s'.sched.pm.completed)
  {
    hide Inv, Step, Exec, CompleteLease, RetainPrefix, AckedBy, PartlyFlushed, AfterFlush, Chunk, Subset, Count;
    BitsSame(s);
    InvShape(s.sched);
    match e {
      case Schedule(op) => StepKeepsBits(s.sched, op);
      case Finish(key) => StepKeepsBits(s.sched, Complete(key)); StepIs(s.sched, key, 0);
      case Keep(key) =>
        var hi := s.attempts[key].start + s.attempts[key].forwarded;
        StepKeepsBits(s.sched, Op.Retain(key, hi));
        StepIs(s.sched, key, hi);
      case Freeze => StepKeepsBits(s.sched, Hint);
      case _ =>
    }
  }

  lemma {:induction false} RunGeometry(states: seq<SessionState>, events: seq<Event>, content: nat -> byte, k: nat)
    requires Behaviour(states, events, content) && k < |states|
    ensures states[k].sched.pm.g == states[0].sched.pm.g
  {
    hide Behaviour, Apply, Enabled, Subset;
    BehaviourShape(states, events, content);
    if k > 0 {
      RunGeometry(states, events, content, k - 1);
      BehaviourStep(states, events, content, k - 1);
      StepGrowsBits(states[k - 1], events[k - 1], content);
    }
  }

  lemma StepIs(s: State, key: LeaseKey, hi: nat)
    requires Inv(s)
    ensures |s.pm.completed| == Count(s.pm.g) && s.pm.nextCandidate <= Count(s.pm.g)
    ensures Step(s, Complete(key)) == CompleteLease(s, key).0
    ensures Step(s, Op.Retain(key, hi)) == RetainPrefix(s, key, hi).0
  {
    hide Inv, CompleteLease, RetainPrefix, Count;
    InvShape(s);
  }

  lemma {:induction false} TrackedRun(states: seq<SessionState>, events: seq<Event>, content: nat -> byte, k: nat)
    requires Behaviour(states, events, content) && SessionOk(states[0], content) && k < |states|
    requires TrackedOk(states[0]) || !NoSave(events, 0, k)
    ensures TrackedOk(states[k])
  {
    hide Behaviour, SessionOk, TrackedOk, Apply, Enabled;
    BehaviourShape(states, events, content);
    if k > 0 {
      BehaviourStep(states, events, content, k - 1);
      BehaviourOk(states, events, content, k - 1);
      if events[k - 1] != Save {
        TrackedRun(states, events, content, k - 1);
      }
      TrackedStep(states[k - 1], events[k - 1], content);
    }
  }

  /** A session that opens with no checkpoint, or with the one it restored, knows it. */
  lemma OpenTracked(pm: PieceMap, file: File, durable: File, disk: Option<Snapshot>, watermark: nat)
    requires PieceMaps.Valid(pm)
    requires disk.Some? ==> disk.value == Snapshot(pm.g, pm.completed, pm.completedBytes)
    ensures TrackedOk(Open(pm, file, durable, disk, watermark))
  {
    hide Count;
  }

  lemma DiskGrows(s: SessionState, e: Event, content: nat -> byte)
    requires SessionOk(s, content) && Inv(s.sched) && Enabled(s, e) && TrackedOk(s)
    ensures NotSmaller(s.disk, Apply(s, e, content).disk)
  {
    hide SessionOk, Inv, Apply, SnapOk, SnapFits;
    if e == Save {
      SaveWrites(s, content);
      assert Pending(s.monitor, s.monitor.snap);
    } else {
      StepKeepsDisk(s, e, content);
    }
  }

  lemma SubsetRefl(disk: Option<Snapshot>)
    ensures NotSmaller(disk, disk)
  {
  }

  lemma {:induction false} GrowRun(states: seq<SessionState>, events: seq<Event>, content: nat -> byte, k: nat, l: nat)
    requires Behaviour(states, events, content) && SessionOk(states[0], content) && k <= l < |states|
    requires TrackedOk(states[0]) || !NoSave(events, 0, k)
    ensures TrackedOk(states[l]) && NotSmaller(states[k].disk, states[l].disk)
    decreases l
  {
    hide Behaviour, Apply, Enabled, SessionOk, TrackedOk;
    BehaviourShape(states, events, content);
    if k < l {
      GrowRun(states, events, content, k, l - 1);
      BehaviourStep(states, events, content, l - 1);
      BehaviourOk(states, events, content, l - 1);
      DiskGrows(states[l - 1], events[l - 1], content);
      TrackedStep(states[l - 1], events[l - 1], content);
    } else {
      TrackedRun(states, events, content, k);
      SubsetRefl(states[k].disk);
    }
  }

  /** No later checkpoint of a session drops a piece of an earlier one: from the start if it
      opened with none or with the one it restored, and from its first save on in any case. */
  lemma CheckpointsGrow(pm: PieceMap, file: File, durable: File, disk: Option<Snapshot>, watermark: nat,
                        content: nat -> byte, states: seq<SessionState>, events: seq<Event>, k: nat, l: nat)
    requires SoundStart(pm, file, durable, content) && Behaviour(states, events, content) && k <= l < |states|
    requires states[0] == Open(pm, file, durable, disk, watermark)
    requires (disk.Some? ==> disk.value == Snapshot(pm.g, pm.completed, pm.completedBytes)) || !NoSave(events, 0, k)
    ensures NotSmaller(states[k].disk, states[l].disk)
  {
    hide Behaviour, SessionOk, TrackedOk, Open, NoSave, NotSmaller, PieceMaps.Valid;
    OpenOk(pm, file, durable, disk, watermark, content);
    if disk.Some? ==> disk.value == Snapshot(pm.g, pm.completed, pm.completedBytes) {
      OpenTracked(pm, file, durable, disk, watermark);
    }
    GrowRun(states, events, content, k, l);
  }

  /** In every reachable state, received bytes are the bytes restored at the start, plus the
      bytes acknowledged since, plus those forwarded by live attempts. */
  lemma ReceivedConserved(pm: PieceMap, file: File, durable: File, disk: Option<Snapshot>, watermark: nat,
                          content: nat -> byte, states: seq<SessionState>, events: seq<Event>, k: nat)
    requires SoundStart(pm, file, durable, content)
    requires Behaviour(states, events, content) && k < |states|
    requires states[0] == Open(pm, file, durable, disk, watermark)
    ensures states[k].received
         == pm.completedBytes + (|states[k].acked| - |RestoredBytes(pm)|) + MapSum(Forwards(states[k].attempts))
  {
    hide AuditOk, FilesOk, AttemptsOk, MonitorOk;
    OpenOk(pm, file, durable, disk, watermark, content);
    BehaviourOk(states, events, content, k);
    RestoredBytesExact(pm);
  }

  /** A finished download is right: once every piece is complete, every byte of the object is in
      the file with its right value, and durably so once the writer has closed. */
  lemma AllDoneIsRight(s: SessionState, content: nat -> byte)
    requires SessionOk(s, content) && AllDone(s.sched.pm)
    ensures forall x: nat :: x < s.sched.pm.g.totalSize ==>
              Good(s.writer.file, content, x) && (s.closed ==> Good(s.writer.synced, content, x))
  {
    hide AttemptsOk, MonitorOk, CountOk, WriterOk, QueueOk, Good, PiecesOk, IndexesOk, Count, PieceOf;
    AllDoneExact(s.sched.pm);
    forall x: nat | x < s.sched.pm.g.totalSize ensures x in s.acked {
      PieceOfUnique(s.sched.pm.g, x, PieceOf(s.sched.pm.g, x));
      assert IsComplete(s.sched.pm, PieceOf(s.sched.pm.g, x));
      assert !Unacked(s.sched, x);
    }
  }
}
