/** Every step of the session keeps `SessionOk`. */
module SessionLaws {
  import opened Arith
  import opened Ranges
  import opened PieceMaps
  import opened Leases
  import opened SchedulerModel
  import opened SchedulerLaws
  import opened SchedulerTheorems
  import opened Counting
  import opened MapSums
  import opened Cache
  import opened Writer
  import opened WriterLaws
  import opened Session

  // ----- the scheduler's part

  predicate Targets(op: Op, key: LeaseKey) {
    match op
    case Renew(k, _) => k == key
    case Retain(k, _) => k == key
    case Complete(k) => k == key
    case Reclaim(k) => k == key
    case _ => false
  }

  /** An operation on another lease leaves this one as it is. */
  lemma StepKeepsLease(s: State, op: Op, key: LeaseKey)
    requires Inv(s) && Active(s, key) && !Targets(op, key)
    ensures Active(Step(s, op), key) && RangeOf(Step(s, op), key) == RangeOf(s, key)
  {
    hide Count, PieceOk, IndexesOk, Remove, Insert, MarkComplete;
    ActiveBounds(s, key);
    match op {
      case Complete(k) =>
        if Active(s, k) && k.piece == key.piece {
          assert key.lease in CompleteIn(s.pieces[k.piece], k.lease).leases;
        }
      case _ =>
    }
  }

  /** Durable bits are never cleared. */
  lemma StepKeepsBits(s: State, op: Op)
    requires Inv(s)
    ensures Step(s, op).pm.g == s.pm.g && Subset(s.pm.completed, Step(s, op).pm.completed)
    ensures |s.pm.completed| == Count(s.pm.g)
  {
    hide Count, PieceOk, IndexesOk, PiecesOk, Remove, Insert;
    InvShape(s);
  }

  /** Acknowledging a prefix of a lease adds exactly its bytes. */
  lemma AckedGrows(a: Audit, key: LeaseKey, hi: nat)
    requires AuditOk(a) && Active(a.s, key) && RangeOf(a.s, key).start <= hi <= RangeOf(a.s, key).end
    ensures var r := ByteRange(RangeOf(a.s, key).start, hi);
            |a.acked + BytesOf(r)| == |a.acked| + (hi - r.start)
  {
    var r := ByteRange(RangeOf(a.s, key).start, hi);
    IntervalSize(r);
    forall x | x in BytesOf(r) ensures x !in a.acked {
      LeasedByPiece(a.s, key, x);
    }
    assert a.acked !! BytesOf(r);
  }

  // ----- snapshots

  lemma SubsetTrans(a: seq<bool>, b: seq<bool>, c: seq<bool>)
    requires Subset(a, b) && Subset(b, c)
    ensures Subset(a, c)
  {
  }

  lemma SnapOkLater(s: SessionState, s': SessionState, snap: Snapshot)
    requires SnapOk(s, snap) && s'.sched.pm.g == s.sched.pm.g && Subset(s.sched.pm.completed, s'.sched.pm.completed)
    ensures SnapOk(s', snap)
  {
    SubsetTrans(snap.bits, s.sched.pm.completed, s'.sched.pm.completed);
  }

  lemma BackedLater(snap: Snapshot, f: File, f': File, content: nat -> byte)
    requires Backed(snap, f, content) && forall x :: Good(f, content, x) ==> Good(f', content, x)
    ensures Backed(snap, f', content)
  {
  }

  /** Nothing relevant to checkpoints moved backwards from `s` to `s'`. */
  ghost predicate Later(s: SessionState, s': SessionState, content: nat -> byte) {
    && s'.sched.pm.g == s.sched.pm.g && Subset(s.sched.pm.completed, s'.sched.pm.completed)
    && (forall x :: Good(s.writer.file, content, x) ==> Good(s'.writer.file, content, x))
    && (forall x :: Good(s.writer.synced, content, x) ==> Good(s'.writer.synced, content, x))
  }

  lemma PendingLater(s: SessionState, s': SessionState, snap: Snapshot, content: nat -> byte)
    requires PendingOk(s, snap, content) && Later(s, s', content)
    ensures PendingOk(s', snap, content)
  {
    hide SnapOk, Backed, Good, Subset;
    SnapOkLater(s, s', snap);
    BackedLater(snap, s.writer.file, s'.writer.file, content);
  }

  lemma MonitorLater(s: SessionState, s': SessionState, content: nat -> byte)
    requires MonitorOk(s, content) && Later(s, s', content) && s'.monitor == s.monitor
    requires |s.queue| <= |s'.queue| && s'.queue[..|s.queue|] == s.queue
    ensures MonitorOk(s', content)
  {
    hide PendingOk, Later, Backed;
    match s.monitor {
      case Idle =>
      case Deciding(_) =>
      case Frozen(snap) => PendingLater(s, s', snap, content);
      case Waiting(snap, pos) =>
        PendingLater(s, s', snap, content);
        assert s'.queue[pos] == s'.queue[..|s.queue|][pos];
      case Durable(snap) =>
        PendingLater(s, s', snap, content);
        SyncedLater(s, s', snap, content);
    }
  }

  lemma SyncedLater(s: SessionState, s': SessionState, snap: Snapshot, content: nat -> byte)
    requires Backed(snap, s.writer.synced, content) && Later(s, s', content)
    ensures Backed(snap, s'.writer.synced, content)
  {
  }

  lemma LaterSame(s: SessionState, s': SessionState, content: nat -> byte)
    requires s'.sched.pm == s.sched.pm && s'.writer == s.writer
    ensures Later(s, s', content)
  {
  }

  // ----- attempts

  /** Appending another command does not disturb an attempt, unless it ends the attempt's lease. */
  lemma EnqueueKeepsPhase(s: SessionState, s': SessionState, c: Cmd, content: nat -> byte, total: nat,
                          key: LeaseKey, a: Attempt)
    requires WriterOk(s.writer, content, total) && QueueOk(s.queue, content, total) && CmdOk(c, content, total)
    requires PhaseOk(s, content, key, a) && c != FlushLease(key) && c != DiscardLease(key)
    requires s'.writer == s.writer && s'.queue == s.queue + [c]
    ensures PhaseOk(s', content, key, a)
  {
    hide WriterOk, CmdOk, Stored, InFile, Exec;
    var hi := a.start + a.forwarded;
    match a.phase {
      case Streaming =>
        ReplayAppend(s.writer, s.queue, c);
        ReplayOk(s.writer, s.queue, content, total);
        var r := Replay(s.writer, s.queue);
        DeadStaysDead(r, c);
        if r.alive {
          ExecKeepsOpen(r, c, key);
          ExecKeepsStored(r, c, content, total, key, a.start, hi);
        }
      case Flushing(pos) =>
        assert (s.queue + [c])[..pos] == s.queue[..pos];
      case Confirmed =>
      case Abandoned =>
    }
  }

  lemma DeadStaysDead(w: WriterState, c: Cmd)
    ensures Exec(w, c).alive ==> w.alive
  {
  }

  /** Scheduler and attempt bookkeeping that only concern other leases keep `PhaseOk`. */
  lemma SamePhase(s: SessionState, s': SessionState, content: nat -> byte, key: LeaseKey, a: Attempt)
    requires PhaseOk(s, content, key, a) && s'.writer == s.writer && s'.queue == s.queue
    ensures PhaseOk(s', content, key, a)
  {
  }

  /** What an attempt needs from the scheduler. */
  ghost predicate LeaseMatches(s: SessionState, key: LeaseKey, a: Attempt) {
    && Active(s.sched, key) && RangeOf(s.sched, key) == ByteRange(a.start, a.end)
    && a.start + a.forwarded <= a.end
  }

  lemma AttemptParts(s: SessionState, content: nat -> byte)
    ensures AttemptsOk(s, content) <==>
            forall key :: key in s.attempts ==>
              LeaseMatches(s, key, s.attempts[key]) && PhaseOk(s, content, key, s.attempts[key])
  {
    hide PhaseOk, Active, RangeOf;
  }

  lemma AttemptsEnqueue(s: SessionState, s': SessionState, c: Cmd, content: nat -> byte)
    requires FilesOk(s, content) && AttemptsOk(s, content) && CmdOk(c, content, s.sched.pm.g.totalSize)
    requires s'.writer == s.writer && s'.queue == s.queue + [c] && s'.sched == s.sched
    requires forall key :: key in s'.attempts ==>
               || (key in s.attempts && s'.attempts[key] == s.attempts[key]
                   && c != FlushLease(key) && c != DiscardLease(key))
               || (LeaseMatches(s', key, s'.attempts[key]) && PhaseOk(s', content, key, s'.attempts[key]))
    ensures AttemptsOk(s', content)
  {
    hide PhaseOk, WriterOk, QueueOk, CmdOk, Good, Active, RangeOf;
    AttemptParts(s, content);
    AttemptParts(s', content);
    forall key | key in s'.attempts
      ensures LeaseMatches(s', key, s'.attempts[key]) && PhaseOk(s', content, key, s'.attempts[key])
    {
      if key in s.attempts && s'.attempts[key] == s.attempts[key] && c != FlushLease(key) && c != DiscardLease(key) {
        assert LeaseMatches(s, key, s.attempts[key]);
        EnqueueKeepsPhase(s, s', c, content, s.sched.pm.g.totalSize, key, s.attempts[key]);
      }
    }
  }

  // ----- scheduler steps

  /** The session after an operation of the scheduler that acknowledges nothing. */
  lemma SchedulerStepKeeps(s: SessionState, op: Op, content: nat -> byte)
    requires SessionOk(s, content) && AckedBy(s.sched, op) == {}
    requires forall key :: key in s.attempts ==> !Targets(op, key)
    ensures Inv(s.sched) && SessionOk(s.(sched := Step(s.sched, op)), content)
  {
    hide AuditOk, Inv, WriterOk, QueueOk, PhaseOk, MonitorOk, CountOk, Step, Good;
    var a := Audit(s.sched, s.acked);
    AuditInv(a);
    StepKeepsAudit(a, op);
    assert s.acked + {} == s.acked;
    var s' := s.(sched := Step(s.sched, op));
    StepKeepsBits(s.sched, op);
    AttemptParts(s, content);
    AttemptParts(s', content);
    forall key | key in s.attempts
      ensures LeaseMatches(s', key, s.attempts[key]) && PhaseOk(s', content, key, s.attempts[key])
    {
      assert LeaseMatches(s, key, s.attempts[key]);
      StepKeepsLease(s.sched, op, key);
      SamePhase(s, s', content, key, s.attempts[key]);
    }
    assert s'.queue[..|s.queue|] == s.queue;
    MonitorLater(s, s', content);
    SameCount(s, s');
  }

  lemma SameCount(s: SessionState, s': SessionState)
    requires CountOk(s) && s'.received == s.received && s'.acked == s.acked && s'.attempts == s.attempts
    ensures CountOk(s')
  {
  }

  lemma ScheduleKeeps(s: SessionState, op: Op, content: nat -> byte)
    requires SessionOk(s, content) && Enabled(s, Schedule(op))
    ensures Inv(s.sched) && SessionOk(Apply(s, Schedule(op), content), content)
  {
    hide AuditOk, FilesOk, AttemptsOk, MonitorOk, CountOk, Inv, Step;
    SchedulerStepKeeps(s, op, content);
  }

  // ----- commands of the workers

  lemma QueueAppend(queue: seq<Cmd>, c: Cmd, content: nat -> byte, total: nat)
    requires QueueOk(queue, content, total) && CmdOk(c, content, total)
    ensures QueueOk(queue + [c], content, total)
  {
    hide CmdOk;
  }

  /** Common part of the events that append a command. */
  lemma EnqueueKeeps(s: SessionState, s': SessionState, c: Cmd, content: nat -> byte)
    requires SessionOk(s, content) && CmdOk(c, content, s.sched.pm.g.totalSize) && !s.closed
    requires s'.queue == s.queue + [c] && s'.writer == s.writer && s'.sched == s.sched && s'.acked == s.acked
    requires s'.closed == s.closed && s'.monitor == s.monitor
    requires AttemptsOk(s', content) && CountOk(s')
    ensures SessionOk(s', content)
  {
    hide AuditOk, WriterOk, QueueOk, CmdOk, AttemptsOk, MonitorOk, CountOk, Good;
    QueueAppend(s.queue, c, content, s.sched.pm.g.totalSize);
    BitsSame(s);
    LaterSame(s, s', content);
    assert s'.queue[..|s.queue|] == s.queue;
    MonitorLater(s, s', content);
  }

  lemma BitsSame(s: SessionState)
    ensures Subset(s.sched.pm.completed, s.sched.pm.completed)
  {
  }

  lemma BeginKeeps(s: SessionState, key: LeaseKey, content: nat -> byte)
    requires SessionOk(s, content) && Enabled(s, Begin(key))
    ensures Inv(s.sched) && SessionOk(Apply(s, Begin(key), content), content)
  {
    hide AuditOk, Inv, FilesOk, MonitorOk, PhaseOk, AttemptsOk;
    AuditInv(Audit(s.sched, s.acked));
    var s' := Apply(s, Begin(key), content);
    var c := BeginLease(key);
    ActiveBounds(s.sched, key);
    assert Forwards(s'.attempts) == Forwards(s.attempts)[key := 0];
    MapSumInsert(Forwards(s.attempts), key, 0);
    BeginPhase(s, s', key, content);
    AttemptsEnqueue(s, s', c, content);
    EnqueueKeeps(s, s', c, content);
  }

  lemma BeginPhase(s: SessionState, s': SessionState, key: LeaseKey, content: nat -> byte)
    requires key in s'.attempts && s'.attempts[key].phase == Streaming && s'.attempts[key].forwarded == 0
    requires s'.writer == s.writer && s'.queue == s.queue + [BeginLease(key)]
    ensures PhaseOk(s', content, key, s'.attempts[key])
  {
    ReplayAppend(s.writer, s.queue, BeginLease(key));
  }

  lemma ForwardKeeps(s: SessionState, key: LeaseKey, n: nat, content: nat -> byte)
    requires SessionOk(s, content) && Enabled(s, Forward(key, n))
    ensures Inv(s.sched) && SessionOk(Apply(s, Forward(key, n), content), content)
  {
    hide AuditOk, Inv, MonitorOk, PhaseOk, AttemptsOk, FilesOk, CountOk, Chunk, CmdOk;
    AuditInv(Audit(s.sched, s.acked));
    AttemptParts(s, content);
    var a := s.attempts[key];
    assert LeaseMatches(s, key, a);
    ActiveWithinFile(s.sched, key);
    ForwardAppends(s, Apply(s, Forward(key, n), content), key, n, content);
  }

  lemma ForwardAppends(s: SessionState, s': SessionState, key: LeaseKey, n: nat, content: nat -> byte)
    requires SessionOk(s, content) && !s.closed && Live(s, key, Streaming)
    requires LeaseMatches(s, key, s.attempts[key])
    requires var a := s.attempts[key];
             var hi := a.start + a.forwarded;
             && hi + n <= a.end <= s.sched.pm.g.totalSize
             && s' == s.(queue := s.queue + [Data(key, hi, Chunk(content, hi, n))],
                         attempts := s.attempts[key := a.(forwarded := a.forwarded + n)], received := s.received + n)
    ensures SessionOk(s', content)
  {
    hide AuditOk, MonitorOk, PhaseOk, AttemptsOk, FilesOk, CountOk, Chunk, CmdOk, Active, RangeOf;
    var a := s.attempts[key];
    var hi := a.start + a.forwarded;
    var c := Data(key, hi, Chunk(content, hi, n));
    ChunkOk(content, key, hi, n, s.sched.pm.g.totalSize);
    AttemptParts(s, content);
    CountForwarded(s, s', key, n);
    ForwardPhase(s, s', key, n, content);
    assert LeaseMatches(s', key, s'.attempts[key]);
    AttemptsEnqueue(s, s', c, content);
    EnqueueKeeps(s, s', c, content);
  }

  lemma CountForwarded(s: SessionState, s': SessionState, key: LeaseKey, n: nat)
    requires CountOk(s) && key in s.attempts && s'.acked == s.acked && s'.received == s.received + n
    requires s'.attempts == s.attempts[key := s.attempts[key].(forwarded := s.attempts[key].forwarded + n)]
    ensures CountOk(s')
  {
    var f := s.attempts[key].forwarded + n;
    assert Forwards(s'.attempts) == Forwards(s.attempts)[key := f];
    MapSumInsert(Forwards(s.attempts), key, f);
  }

  lemma ChunkOk(content: nat -> byte, key: LeaseKey, offset: nat, n: nat, total: nat)
    ensures |Chunk(content, offset, n)| == n
    ensures offset + n <= total ==> CmdOk(Data(key, offset, Chunk(content, offset, n)), content, total)
  {
  }

  lemma ActiveWithinFile(s: State, key: LeaseKey)
    requires Inv(s) && Active(s, key)
    ensures RangeOf(s, key).end <= s.pm.g.totalSize
  {
    ActiveBounds(s, key);
    PieceBounds(s.pm.g, key.piece);
  }

  lemma ForwardPhase(s: SessionState, s': SessionState, key: LeaseKey, n: nat, content: nat -> byte)
    requires FilesOk(s, content)
    requires key in s.attempts && key in s'.attempts && s.attempts[key].phase == Streaming
    requires PhaseOk(s, content, key, s.attempts[key])
    requires s'.attempts[key] == s.attempts[key].(forwarded := s.attempts[key].forwarded + n)
    requires var a := s.attempts[key];
             var c := Data(key, a.start + a.forwarded, Chunk(content, a.start + a.forwarded, n));
             s'.writer == s.writer && s'.queue == s.queue + [c] && CmdOk(c, content, s.sched.pm.g.totalSize)
    ensures PhaseOk(s', content, key, s'.attempts[key])
  {
    hide WriterOk, CmdOk, Stored, ExecData, Chunk, QueueOk, Good;
    var a, total := s.attempts[key], s.sched.pm.g.totalSize;
    var hi := a.start + a.forwarded;
    var c := Data(key, hi, Chunk(content, hi, n));
    ChunkOk(content, key, hi, n, total);
    ReplayAppend(s.writer, s.queue, c);
    ReplayOk(s.writer, s.queue, content, total);
    var r := Replay(s.writer, s.queue);
    DeadStaysDead(r, c);
    if r.alive {
      ExecKeepsOpen(r, c, key);
      ExecDataStored(r, key, hi, c.data, content, total, key, a.start, hi);
    }
  }

  lemma FlushKeeps(s: SessionState, key: LeaseKey, content: nat -> byte)
    requires SessionOk(s, content) && Enabled(s, Flush(key))
    ensures Inv(s.sched) && SessionOk(Apply(s, Flush(key), content), content)
  {
    hide AuditOk, Inv, MonitorOk, PhaseOk, AttemptsOk, FilesOk;
    AuditInv(Audit(s.sched, s.acked));
    AttemptParts(s, content);
    var s' := Apply(s, Flush(key), content);
    assert LeaseMatches(s, key, s.attempts[key]);
    assert Forwards(s'.attempts) == Forwards(s.attempts);
    FlushPhase(s, s', key, content);
    AttemptsEnqueue(s, s', FlushLease(key), content);
    EnqueueKeeps(s, s', FlushLease(key), content);
  }

  lemma FlushPhase(s: SessionState, s': SessionState, key: LeaseKey, content: nat -> byte)
    requires key in s.attempts && key in s'.attempts && s.attempts[key].phase == Streaming
    requires PhaseOk(s, content, key, s.attempts[key])
    requires s'.attempts[key] == s.attempts[key].(phase := Flushing(|s.queue|))
    requires s'.writer == s.writer && s'.queue == s.queue + [FlushLease(key)]
    ensures PhaseOk(s', content, key, s'.attempts[key])
  {
    assert (s.queue + [FlushLease(key)])[..|s.queue|] == s.queue;
  }

  // ----- settling an attempt

  /** Acknowledging the forwarded prefix of a confirmed attempt, by completing the lease or
      by retaining the prefix. */
  lemma AckKeeps(s: SessionState, s': SessionState, key: LeaseKey, op: Op, content: nat -> byte)
    requires SessionOk(s, content) && Inv(s.sched) && Live(s, key, Confirmed) && !s.closed
    requires var a := s.attempts[key];
             var hi := a.start + a.forwarded;
             (op == Complete(key) && hi == a.end) || (op == Op.Retain(key, hi) && Retainable(s.sched, key, hi))
    requires s' == s.(sched := Step(s.sched, op), acked := s.acked + AckedBy(s.sched, op),
                      attempts := s.attempts - {key})
    ensures SessionOk(s', content)
  {
    hide AuditOk, Inv, FilesOk, AttemptsOk, MonitorOk, CountOk, Step;
    var a := Audit(s.sched, s.acked);
    AttemptLease(s, key, content);
    StepKeepsAudit(a, op);
    StepKeepsBits(s.sched, op);
    AckedPrefix(s, key, op);
    AckFiles(s, s', key, content);
    AckCount(s, s', key);
    OthersKeep(s, s', key, op, content);
    LaterSched(s, s', content);
    assert s'.queue[..|s.queue|] == s.queue;
    MonitorLater(s, s', content);
  }

  lemma AttemptLease(s: SessionState, key: LeaseKey, content: nat -> byte)
    requires AttemptsOk(s, content) && key in s.attempts
    ensures LeaseMatches(s, key, s.attempts[key]) && PhaseOk(s, content, key, s.attempts[key])
  {
    hide PhaseOk;
    AttemptParts(s, content);
  }

  lemma LaterSched(s: SessionState, s': SessionState, content: nat -> byte)
    requires s'.writer == s.writer && s'.sched.pm.g == s.sched.pm.g
    requires Subset(s.sched.pm.completed, s'.sched.pm.completed)
    ensures Later(s, s', content)
  {
  }

  lemma AckedPrefix(s: SessionState, key: LeaseKey, op: Op)
    requires key in s.attempts && LeaseMatches(s, key, s.attempts[key])
    requires var a := s.attempts[key];
             var hi := a.start + a.forwarded;
             (op == Complete(key) && hi == a.end) || (op == Op.Retain(key, hi) && Retainable(s.sched, key, hi))
    ensures var a := s.attempts[key]; AckedBy(s.sched, op) == BytesOf(ByteRange(a.start, a.start + a.forwarded))
  {
  }

  lemma AckFiles(s: SessionState, s': SessionState, key: LeaseKey, content: nat -> byte)
    requires FilesOk(s, content) && key in s.attempts && s.attempts[key].phase == Confirmed
    requires PhaseOk(s, content, key, s.attempts[key])
    requires var a := s.attempts[key]; s'.acked == s.acked + BytesOf(ByteRange(a.start, a.start + a.forwarded))
    requires s'.writer == s.writer && s'.queue == s.queue && s'.closed == s.closed
    requires s'.sched.pm.g == s.sched.pm.g
    ensures FilesOk(s', content)
  {
    hide WriterOk, QueueOk, Good;
  }

  lemma AckCount(s: SessionState, s': SessionState, key: LeaseKey)
    requires AuditOk(Audit(s.sched, s.acked)) && CountOk(s)
    requires key in s.attempts && LeaseMatches(s, key, s.attempts[key])
    requires var a := s.attempts[key]; s'.acked == s.acked + BytesOf(ByteRange(a.start, a.start + a.forwarded))
    requires s'.attempts == s.attempts - {key} && s'.received == s.received
    ensures CountOk(s')
  {
    hide AuditOk;
    AckedGrows(Audit(s.sched, s.acked), key, s.attempts[key].start + s.attempts[key].forwarded);
    MapSumRemove(Forwards(s.attempts), key);
    assert Forwards(s'.attempts) == Forwards(s.attempts) - {key};
  }

  lemma OthersKeep(s: SessionState, s': SessionState, key: LeaseKey, op: Op, content: nat -> byte)
    requires Inv(s.sched) && AttemptsOk(s, content) && forall k :: Targets(op, k) ==> k == key
    requires s'.sched == Step(s.sched, op) && s'.attempts == s.attempts - {key}
    requires s'.writer == s.writer && s'.queue == s.queue
    ensures AttemptsOk(s', content)
  {
    hide Inv, PhaseOk, Step, Active, RangeOf;
    AttemptParts(s, content);
    AttemptParts(s', content);
    forall k | k in s'.attempts
      ensures LeaseMatches(s', k, s'.attempts[k]) && PhaseOk(s', content, k, s'.attempts[k])
    {
      assert k in s.attempts && s'.attempts[k] == s.attempts[k] && LeaseMatches(s, k, s.attempts[k]);
      StepKeepsLease(s.sched, op, k);
      SamePhase(s, s', content, k, s.attempts[k]);
    }
  }

  /** Giving up an attempt: its forwarded bytes no longer count as received. */
  lemma DropKeeps(s: SessionState, s': SessionState, key: LeaseKey, content: nat -> byte)
    requires SessionOk(s, content) && key in s.attempts
    requires s' == s.(attempts := s.attempts - {key}, received := s.received - s.attempts[key].forwarded)
    ensures SessionOk(s', content)
  {
    hide AuditOk, WriterOk, QueueOk, PhaseOk, MonitorOk, Good, Active, RangeOf;
    AttemptParts(s, content);
    AttemptParts(s', content);
    forall k | k in s'.attempts
      ensures LeaseMatches(s', k, s'.attempts[k]) && PhaseOk(s', content, k, s'.attempts[k])
    {
      assert LeaseMatches(s, k, s.attempts[k]);
      SamePhase(s, s', content, k, s.attempts[k]);
    }
    MapSumRemove(Forwards(s.attempts), key);
    assert Forwards(s'.attempts) == Forwards(s.attempts) - {key};
    BitsSame(s);
    LaterSame(s, s', content);
    assert s'.queue[..|s.queue|] == s.queue;
    MonitorLater(s, s', content);
  }

  lemma FinishKeeps(s: SessionState, key: LeaseKey, content: nat -> byte)
    requires SessionOk(s, content) && Enabled(s, Finish(key))
    ensures Inv(s.sched) && SessionOk(Apply(s, Finish(key), content), content)
  {
    hide AuditOk, Inv, FilesOk, AttemptsOk, MonitorOk, CountOk, CompleteLease;
    AuditInv(Audit(s.sched, s.acked));
    AckKeeps(s, Apply(s, Finish(key), content), key, Complete(key), content);
  }

  lemma KeepKeeps(s: SessionState, key: LeaseKey, content: nat -> byte)
    requires SessionOk(s, content) && Enabled(s, Keep(key))
    ensures Inv(s.sched) && SessionOk(Apply(s, Keep(key), content), content)
  {
    hide AuditOk, Inv, FilesOk, AttemptsOk, MonitorOk, CountOk;
    AuditInv(Audit(s.sched, s.acked));
    var confirmed := s.attempts[key].start + s.attempts[key].forwarded;
    if Retainable(s.sched, key, confirmed) {
      AckKeeps(s, Apply(s, Keep(key), content), key, Op.Retain(key, confirmed), content);
    } else {
      DropKeeps(s, Apply(s, Keep(key), content), key, content);
    }
  }

  lemma FlushFailedKeeps(s: SessionState, key: LeaseKey, content: nat -> byte)
    requires SessionOk(s, content) && Enabled(s, FlushFailed(key))
    ensures Inv(s.sched) && SessionOk(Apply(s, FlushFailed(key), content), content)
  {
    hide AuditOk, Inv, FilesOk, AttemptsOk, MonitorOk, CountOk;
    AuditInv(Audit(s.sched, s.acked));
    DropKeeps(s, Apply(s, FlushFailed(key), content), key, content);
  }

  lemma AbandonKeeps(s: SessionState, key: LeaseKey, content: nat -> byte)
    requires SessionOk(s, content) && Enabled(s, Abandon(key))
    ensures Inv(s.sched) && SessionOk(Apply(s, Abandon(key), content), content)
  {
    hide AuditOk, Inv, WriterOk, QueueOk, PhaseOk, MonitorOk, Good, Active, RangeOf;
    AuditInv(Audit(s.sched, s.acked));
    var s' := Apply(s, Abandon(key), content);
    AttemptParts(s, content);
    AttemptParts(s', content);
    forall k | k in s'.attempts
      ensures LeaseMatches(s', k, s'.attempts[k]) && PhaseOk(s', content, k, s'.attempts[k])
    {
      assert LeaseMatches(s, k, s.attempts[k]);
      if k == key {
        AbandonedPhase(s', content, k, s'.attempts[k]);
      } else {
        SamePhase(s, s', content, k, s.attempts[k]);
      }
    }
    assert Forwards(s'.attempts) == Forwards(s.attempts)[key := 0];
    MapSumInsert(Forwards(s.attempts), key, 0);
    BitsSame(s);
    LaterSame(s, s', content);
    assert s'.queue[..|s.queue|] == s.queue;
    MonitorLater(s, s', content);
  }

  lemma AbandonedPhase(s: SessionState, content: nat -> byte, key: LeaseKey, a: Attempt)
    ensures a.phase == Abandoned ==> (PhaseOk(s, content, key, a) <==> a.forwarded == 0)
  {
  }

  lemma DiscardKeeps(s: SessionState, key: LeaseKey, content: nat -> byte)
    requires SessionOk(s, content) && Enabled(s, Discard(key))
    ensures Inv(s.sched) && SessionOk(Apply(s, Discard(key), content), content)
  {
    hide AuditOk, Inv, FilesOk, AttemptsOk, MonitorOk, CountOk, PhaseOk;
    AuditInv(Audit(s.sched, s.acked));
    AttemptLease(s, key, content);
    AbandonedPhase(s, content, key, s.attempts[key]);
    var s1 := Settle(s, key);
    DropKeeps(s, s1, key, content);
    if s.writer.alive {
      DiscardAppends(s1, Enqueue(s1, DiscardLease(key)), key, content);
    }
  }

  lemma DiscardAppends(s: SessionState, s': SessionState, key: LeaseKey, content: nat -> byte)
    requires SessionOk(s, content) && key !in s.attempts && !s.closed && s' == Enqueue(s, DiscardLease(key))
    ensures SessionOk(s', content)
  {
    hide AuditOk, FilesOk, AttemptsOk, MonitorOk, PhaseOk;
    AttemptsEnqueue(s, s', DiscardLease(key), content);
    EnqueueKeeps(s, s', DiscardLease(key), content);
  }

  // ----- the writer

  lemma {:induction false} ReplayFirst(w: WriterState, queue: seq<Cmd>, pos: nat)
    requires 0 < pos <= |queue|
    ensures Replay(w, queue[..pos]) == Replay(Exec(w, queue[0]), queue[1..][..pos - 1])
  {
    assert queue[..pos][0] == queue[0] && queue[..pos][1..] == queue[1..][..pos - 1];
  }

  /** A writer step executes the head of the queue; attempts see their position advance. */
  lemma WriterStepPhase(s: SessionState, s': SessionState, content: nat -> byte, total: nat, key: LeaseKey, a: Attempt)
    requires WriterOk(s.writer, content, total) && QueueOk(s.queue, content, total)
    requires s.writer.alive && s.queue != []
    requires s'.writer == Exec(s.writer, s.queue[0]) && s'.queue == s.queue[1..]
    requires PhaseOk(s, content, key, a)
    ensures PhaseOk(s', content, key, Advance(a))
  {
    hide WriterOk, Exec, Stored, CmdOk, Good;
    ExecOk(s.writer, s.queue[0], content, total);
    match a.phase {
      case Streaming =>
        assert s.queue[..|s.queue|] == s.queue && s'.queue[..|s'.queue|] == s'.queue;
        ReplayFirst(s.writer, s.queue, |s.queue|);
      case Flushing(pos) =>
        if pos > 0 {
          ReplayFirst(s.writer, s.queue, pos);
        } else {
          assert s.queue[..0] == [];
          ExecKeepsStored(s.writer, s.queue[0], content, total, key, a.start, a.start + a.forwarded);
        }
      case Confirmed =>
      case Abandoned =>
    }
  }

  lemma WriterStepKeeps(s: SessionState, content: nat -> byte)
    requires SessionOk(s, content) && Enabled(s, WriterStep)
    ensures Inv(s.sched) && SessionOk(Apply(s, WriterStep, content), content)
  {
    hide AuditOk, Inv, PhaseOk, AttemptsOk, MonitorOk, CountOk, WriterOk, CmdOk, Exec, Good;
    AuditInv(Audit(s.sched, s.acked));
    var s' := Apply(s, WriterStep, content);
    var total := s.sched.pm.g.totalSize;
    ExecOk(s.writer, s.queue[0], content, total);
    BitsSame(s);
    LaterFiles(s, s', content);
    WriterStepAttempts(s, s', content);
    WriterStepMonitor(s, s', content);
    SameForwards(s, s');
  }

  lemma LaterFiles(s: SessionState, s': SessionState, content: nat -> byte)
    requires s'.sched == s.sched
    requires forall x :: Good(s.writer.file, content, x) ==> Good(s'.writer.file, content, x)
    requires forall x :: Good(s.writer.synced, content, x) ==> Good(s'.writer.synced, content, x)
    ensures Later(s, s', content)
  {
  }

  lemma SameForwards(s: SessionState, s': SessionState)
    requires CountOk(s) && s'.acked == s.acked && s'.received == s.received
    requires s'.attempts == map k | k in s.attempts :: Advance(s.attempts[k])
    ensures CountOk(s')
  {
    assert Forwards(s'.attempts) == Forwards(s.attempts);
  }

  lemma WriterStepAttempts(s: SessionState, s': SessionState, content: nat -> byte)
    requires FilesOk(s, content) && AttemptsOk(s, content) && s.writer.alive && s.queue != []
    requires s'.writer == Exec(s.writer, s.queue[0]) && s'.queue == s.queue[1..] && s'.sched == s.sched
    requires s'.attempts == map k | k in s.attempts :: Advance(s.attempts[k])
    ensures AttemptsOk(s', content)
  {
    hide PhaseOk, WriterOk, QueueOk, Exec, Good, Active, RangeOf;
    AttemptParts(s, content);
    AttemptParts(s', content);
    forall k | k in s'.attempts
      ensures LeaseMatches(s', k, s'.attempts[k]) && PhaseOk(s', content, k, s'.attempts[k])
    {
      assert LeaseMatches(s, k, s.attempts[k]);
      WriterStepPhase(s, s', content, s.sched.pm.g.totalSize, k, s.attempts[k]);
    }
  }

  lemma WriterStepMonitor(s: SessionState, s': SessionState, content: nat -> byte)
    requires MonitorOk(s, content) && s.writer.alive && s.queue != [] && Later(s, s', content)
    requires s'.writer == Exec(s.writer, s.queue[0]) && s'.queue == s.queue[1..]
    requires s'.monitor == AdvanceMonitor(s.monitor)
    ensures MonitorOk(s', content)
  {
    hide PendingOk, Later, Backed, Exec;
    match s.monitor {
      case Idle =>
      case Deciding(_) =>
      case Frozen(snap) => PendingLater(s, s', snap, content);
      case Waiting(snap, pos) =>
        PendingLater(s, s', snap, content);
        if pos == 0 {
          FlushAllSyncs(s.writer);
          PendingBacked(s', snap, content);
        }
      case Durable(snap) =>
        PendingLater(s, s', snap, content);
        SyncedLater(s, s', snap, content);
    }
  }

  lemma PendingBacked(s: SessionState, snap: Snapshot, content: nat -> byte)
    requires PendingOk(s, snap, content)
    ensures Backed(snap, s.writer.file, content)
  {
  }

  lemma {:induction false} ReplayDead(w: WriterState, queue: seq<Cmd>)
    requires !w.alive
    ensures Replay(w, queue) == w
    decreases |queue|
  {
    if queue != [] {
      ReplayDead(Exec(w, queue[0]), queue[1..]);
    }
  }

  /** When the writer ends, only acknowledged attempts still promise anything. */
  lemma EndedWriterPhase(s: SessionState, s': SessionState, content: nat -> byte, key: LeaseKey, a: Attempt)
    requires PhaseOk(s, content, key, a) && !s'.writer.alive && s'.queue == s.queue
    requires forall x :: Good(s.writer.file, content, x) ==> Good(s'.writer.file, content, x)
    ensures PhaseOk(s', content, key, a)
  {
    hide Exec, Stored, Good;
    match a.phase {
      case Streaming => ReplayDead(s'.writer, s'.queue);
      case Flushing(pos) => ReplayDead(s'.writer, s'.queue[..pos]);
      case Confirmed =>
      case Abandoned =>
    }
  }

  lemma EndedWriterKeeps(s: SessionState, s': SessionState, content: nat -> byte)
    requires SessionOk(s, content) && !s'.writer.alive && FilesOk(s', content)
    requires s' == s.(writer := s'.writer, closed := s'.closed)
    requires forall x :: Good(s.writer.file, content, x) ==> Good(s'.writer.file, content, x)
    requires forall x :: Good(s.writer.synced, content, x) ==> Good(s'.writer.synced, content, x)
    ensures SessionOk(s', content)
  {
    hide AuditOk, FilesOk, PhaseOk, MonitorOk, CountOk, Good, Active, RangeOf;
    AttemptParts(s, content);
    AttemptParts(s', content);
    forall k | k in s'.attempts
      ensures LeaseMatches(s', k, s'.attempts[k]) && PhaseOk(s', content, k, s'.attempts[k])
    {
      assert LeaseMatches(s, k, s.attempts[k]);
      EndedWriterPhase(s, s', content, k, s.attempts[k]);
    }
    LaterFiles(s, s', content);
    assert s'.queue[..|s.queue|] == s.queue;
    MonitorLater(s, s', content);
    SameCount(s, s');
  }

  lemma PartlyFlushedOk(w: WriterState, kept: set<nat>, content: nat -> byte, total: nat)
    requires WriterOk(w, content, total)
    ensures WriterOk(w.(alive := false, file := PartlyFlushed(w, kept)), content, total)
    ensures forall x :: Good(w.file, content, x) ==> Good(PartlyFlushed(w, kept), content, x)
  {
    hide Flushed, BuffersOk;
    FlushedFile(w.file, w.cache, content, total);
    FlushedKeepsKeys(w.file, w.cache);
  }

  lemma FlushedKeepsKeys(file: File, m: Buffers)
    ensures file.Keys <= Flushed(file, m).Keys
  {
  }

  lemma WriterFailsKeeps(s: SessionState, kept: set<nat>, content: nat -> byte)
    requires SessionOk(s, content) && Enabled(s, WriterFails(kept))
    ensures Inv(s.sched) && SessionOk(Apply(s, WriterFails(kept), content), content)
  {
    hide AuditOk, Inv, AttemptsOk, MonitorOk, CountOk, WriterOk, QueueOk, Good, PartlyFlushed;
    AuditInv(Audit(s.sched, s.acked));
    PartlyFlushedOk(s.writer, kept, content, s.sched.pm.g.totalSize);
    EndedWriterKeeps(s, Apply(s, WriterFails(kept), content), content);
  }

  lemma ClosedWriter(w: WriterState, content: nat -> byte, total: nat)
    requires WriterOk(w, content, total)
    ensures var w1 := AfterFlush(w);
            var w' := w1.(alive := false, synced := w1.file);
            && WriterOk(w', content, total)
            && (forall x :: Good(w.file, content, x) ==> Good(w'.file, content, x))
            && (forall x :: Good(w.synced, content, x) ==> Good(w'.synced, content, x))
  {
    hide AfterFlush, BuffersOk;
    AfterFlushOk(w, content, total);
  }

  lemma CloseKeeps(s: SessionState, content: nat -> byte)
    requires SessionOk(s, content) && Enabled(s, Close)
    ensures Inv(s.sched) && SessionOk(Apply(s, Close, content), content)
  {
    hide AuditOk, Inv, AttemptsOk, MonitorOk, CountOk, WriterOk, QueueOk, Good, AfterFlush;
    AuditInv(Audit(s.sched, s.acked));
    ClosedWriter(s.writer, content, s.sched.pm.g.totalSize);
    EndedWriterKeeps(s, Apply(s, Close, content), content);
  }

  // ----- the monitor

  /** A step that only moves the checkpoint procedure on. */
  lemma MonitorMoves(s: SessionState, s': SessionState, content: nat -> byte)
    requires SessionOk(s, content) && MonitorOk(s', content)
    requires s' == s.(monitor := s'.monitor, tracker := s'.tracker, disk := s'.disk)
    ensures SessionOk(s', content)
  {
    hide AuditOk, WriterOk, QueueOk, PhaseOk, MonitorOk, Good, Active, RangeOf;
    AttemptParts(s, content);
    AttemptParts(s', content);
    forall k | k in s'.attempts
      ensures LeaseMatches(s', k, s'.attempts[k]) && PhaseOk(s', content, k, s'.attempts[k])
    {
      assert LeaseMatches(s, k, s.attempts[k]);
      SamePhase(s, s', content, k, s.attempts[k]);
    }
    BitsSame(s);
    LaterSame(s, s', content);
  }

  /** The bits frozen now are backed by the file: a complete piece has all its bytes
      acknowledged, and acknowledged bytes are in the file. */
  lemma FrozenIsBacked(s: SessionState, content: nat -> byte)
    requires AuditOk(Audit(s.sched, s.acked)) && FilesOk(s, content)
    ensures PendingOk(s, TakeSnapshot(s.sched), content)
  {
    hide WriterOk, QueueOk, Good, PiecesOk, IndexesOk, Count;
    var snap := TakeSnapshot(s.sched);
    forall x: nat | x < snap.g.totalSize && IsSet(snap.bits, PieceOf(snap.g, x))
      ensures Good(s.writer.file, content, x)
    {
      assert !Unacked(s.sched, x);
    }
  }

  lemma DecideKeeps(s: SessionState, reason: SaveReason, every: nat, content: nat -> byte)
    requires SessionOk(s, content) && Enabled(s, Decide(reason, every))
    ensures Inv(s.sched) && SessionOk(Apply(s, Decide(reason, every), content), content)
  {
    hide AuditOk, Inv, FilesOk, AttemptsOk, CountOk;
    AuditInv(Audit(s.sched, s.acked));
    MonitorMoves(s, Apply(s, Decide(reason, every), content), content);
  }

  lemma FreezeKeeps(s: SessionState, content: nat -> byte)
    requires SessionOk(s, content) && Enabled(s, Freeze)
    ensures Inv(s.sched) && SessionOk(Apply(s, Freeze, content), content)
  {
    hide AuditOk, Inv, FilesOk, AttemptsOk, CountOk, PendingOk;
    AuditInv(Audit(s.sched, s.acked));
    var s' := Apply(s, Freeze, content);
    SchedulerStepKeeps(s, Hint, content);
    var s1 := s.(sched := Step(s.sched, Hint));
    FrozenIsBacked(s1, content);
    PendingSame(s1, s', TakeSnapshot(s1.sched), content);
    MonitorMoves(s1, s', content);
  }

  lemma BarrierKeeps(s: SessionState, content: nat -> byte)
    requires SessionOk(s, content) && Enabled(s, Barrier)
    ensures Inv(s.sched) && SessionOk(Apply(s, Barrier, content), content)
  {
    hide AuditOk, Inv, FilesOk, AttemptsOk, PendingOk, Backed, PhaseOk;
    AuditInv(Audit(s.sched, s.acked));
    var s', snap := Apply(s, Barrier, content), s.monitor.snap;
    if s.closed {
      ClosedIsSynced(s, content);
      PendingBacked(s, snap, content);
      PendingSame(s, s', snap, content);
      MonitorMoves(s, s', content);
    } else {
      var s1 := Enqueue(s, FlushAll(true));
      AttemptsEnqueue(s, s1, FlushAll(true), content);
      EnqueueKeeps(s, s1, FlushAll(true), content);
      PendingSame(s, s1, snap, content);
      PendingSame(s, s', snap, content);
      MonitorMoves(s1, s', content);
    }
  }

  lemma ClosedIsSynced(s: SessionState, content: nat -> byte)
    requires FilesOk(s, content) && s.closed
    ensures s.writer.synced == s.writer.file
  {
  }

  lemma PendingSame(s: SessionState, s': SessionState, snap: Snapshot, content: nat -> byte)
    requires PendingOk(s, snap, content) && s'.sched == s.sched && s'.writer == s.writer
    ensures PendingOk(s', snap, content)
  {
  }

  lemma EndsKeeps(s: SessionState, e: Event, content: nat -> byte)
    requires SessionOk(s, content) && Enabled(s, e) && (e == BarrierFails || e == Save || e == SaveFails)
    ensures Inv(s.sched) && SessionOk(Apply(s, e, content), content)
  {
    hide AuditOk, Inv, FilesOk, AttemptsOk, CountOk;
    AuditInv(Audit(s.sched, s.acked));
    MonitorMoves(s, Apply(s, e, content), content);
  }

  /** Every step of the session keeps the invariant. */
  lemma StepKeeps(s: SessionState, e: Event, content: nat -> byte)
    requires SessionOk(s, content) && Enabled(s, e)
    ensures Inv(s.sched) && SessionOk(Apply(s, e, content), content)
  {
    hide SessionOk, Apply, Enabled;
    match e {
      case Schedule(op) => ScheduleKeeps(s, op, content);
      case Begin(key) => BeginKeeps(s, key, content);
      case Forward(key, n) => ForwardKeeps(s, key, n, content);
      case Flush(key) => FlushKeeps(s, key, content);
      case Finish(key) => FinishKeeps(s, key, content);
      case Keep(key) => KeepKeeps(s, key, content);
      case FlushFailed(key) => FlushFailedKeeps(s, key, content);
      case Abandon(key) => AbandonKeeps(s, key, content);
      case Discard(key) => DiscardKeeps(s, key, content);
      case WriterStep => WriterStepKeeps(s, content);
      case WriterFails(kept) => WriterFailsKeeps(s, kept, content);
      case Close => CloseKeeps(s, content);
      case Decide(reason, every) => DecideKeeps(s, reason, every, content);
      case Freeze => FreezeKeeps(s, content);
      case Barrier => BarrierKeeps(s, content);
      case BarrierFails => EndsKeeps(s, e, content);
      case Save => EndsKeeps(s, e, content);
      case SaveFails => EndsKeeps(s, e, content);
    }
  }
}
