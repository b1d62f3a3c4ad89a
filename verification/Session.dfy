/** One multi-connection session as a state machine: workers lease, forward and settle
    byte ranges, the writer works off its queue, and the monitor saves checkpoints
    (`src/session/multi.rs`, `src/session/mod.rs`, `src/storage/writer.rs`). */
module Session {
  import opened Arith
  import opened Ranges
  import opened PieceMaps
  import opened Leases
  import opened SchedulerModel
  import opened SchedulerLaws
  import opened MapSums
  import opened Cache
  import opened Writer

  /** A worker's attempt on one lease: streaming, waiting for its flush to be acknowledged
      (the command sits at `pos` in the queue), acknowledged, or given up with its discard
      still to be sent. */
  datatype Phase = Streaming | Flushing(pos: nat) | Confirmed | Abandoned
  datatype Attempt = Attempt(start: nat, end: nat, forwarded: nat, phase: Phase)

  datatype SaveReason = Autosave | Terminal

  datatype Snapshot = Snapshot(g: Geometry, bits: seq<bool>, downloaded: int)

  /** The checkpoint procedure between its suspension points. */
  datatype Monitor =
    | Idle
    | Deciding(reason: SaveReason)
    | Frozen(snap: Snapshot)
    | Waiting(snap: Snapshot, pos: nat)
    | Durable(snap: Snapshot)

  datatype Tracker = Tracker(lastSaved: int, ticks: nat)

  datatype SessionState = SessionState(
    sched: State,
    acked: set<nat>,
    queue: seq<Cmd>,
    writer: WriterState,
    closed: bool,
    attempts: map<LeaseKey, Attempt>,
    received: int,
    monitor: Monitor,
    tracker: Tracker,
    disk: Option<Snapshot>
  )

  datatype Event =
    | Schedule(op: Op)
    | Begin(key: LeaseKey)
    | Forward(key: LeaseKey, n: nat)
    | Flush(key: LeaseKey)
    | Finish(key: LeaseKey)
    | Keep(key: LeaseKey)
    | FlushFailed(key: LeaseKey)
    | Abandon(key: LeaseKey)
    | Discard(key: LeaseKey)
    | WriterStep
    | WriterFails(kept: set<nat>)
    | Close
    | Decide(reason: SaveReason, every: nat)
    | Freeze
    | Barrier
    | BarrierFails
    | Save
    | SaveFails

  /** Start of a session on a piece map, the file found or created, the part of it known to
      be durable, and the checkpoint the piece map was restored from, which stays on disk
      until the next save. */
  function Open(pm: PieceMap, file: File, durable: File, disk: Option<Snapshot>, watermark: nat): SessionState {
    SessionState(Init(pm), RestoredBytes(pm), [], WriterState(true, watermark, map[], map[], file, durable), false,
                 map[], pm.completedBytes, Idle, Tracker(pm.completedBytes, 0), disk)
  }

  /** `should_save` for an autosave: new progress, and enough ticks since the last save. */
  function ShouldSave(t: Tracker, current: int, every: nat): (Tracker, bool) {
    if current <= t.lastSaved then (t.(ticks := 0), false)
    else (t.(ticks := t.ticks + 1), t.ticks + 1 >= every)
  }

  predicate Live(s: SessionState, key: LeaseKey, phase: Phase) {
    key in s.attempts && s.attempts[key].phase == phase
  }

  /** Operations the scheduler may perform at any time on leases without a live attempt. */
  predicate FreeOp(s: SessionState, op: Op) {
    match op
    case Complete(_) => false
    case Retain(_, _) => false
    case Renew(key, _) => key !in s.attempts
    case Reclaim(key) => key !in s.attempts
    case _ => true
  }

  predicate Enabled(s: SessionState, e: Event) {
    match e
    case Schedule(op) => !s.closed && FreeOp(s, op)
    case Begin(key) => !s.closed && s.writer.alive && Active(s.sched, key) && key !in s.attempts
    case Forward(key, n) =>
      !s.closed && s.writer.alive && Live(s, key, Streaming) && n > 0
      && s.attempts[key].start + s.attempts[key].forwarded + n <= s.attempts[key].end
    case Flush(key) => !s.closed && s.writer.alive && Live(s, key, Streaming)
    case Finish(key) =>
      !s.closed && Live(s, key, Confirmed)
      && s.attempts[key].start + s.attempts[key].forwarded == s.attempts[key].end
    case Keep(key) => !s.closed && Live(s, key, Confirmed)
    case FlushFailed(key) =>
      !s.closed && !s.writer.alive && key in s.attempts
      && (s.attempts[key].phase.Streaming? || s.attempts[key].phase.Flushing?)
    case Abandon(key) => !s.closed && Live(s, key, Streaming)
    case Discard(key) => !s.closed && Live(s, key, Abandoned)
    case WriterStep => s.writer.alive && s.queue != []
    case WriterFails(_) => s.writer.alive
    case Close => !s.closed && s.writer.alive && s.queue == [] && s.monitor.Idle?
    case Decide(_, _) => s.monitor.Idle?
    case Freeze => s.monitor.Deciding?
    case Barrier => s.monitor.Frozen? && (s.closed || s.writer.alive)
    case BarrierFails => !s.closed && !s.writer.alive && (s.monitor.Frozen? || s.monitor.Waiting?)
    case Save => s.monitor.Durable?
    case SaveFails => s.monitor.Durable?
  }

  function Chunk(content: nat -> byte, offset: nat, n: nat): (data: seq<byte>)
    ensures |data| == n && Matches(content, offset, data)
  {
    seq(n, i requires 0 <= i < n => content(offset + i))
  }

  function Advance(a: Attempt): Attempt {
    match a.phase
    case Flushing(pos) => a.(phase := if pos > 0 then Flushing(pos - 1) else Confirmed)
    case _ => a
  }

  function AdvanceMonitor(m: Monitor): Monitor {
    match m
    case Waiting(snap, pos) => if pos > 0 then Waiting(snap, pos - 1) else Durable(snap)
    case _ => m
  }

  function Enqueue(s: SessionState, c: Cmd): SessionState {
    s.(queue := s.queue + [c])
  }

  function Settle(s: SessionState, key: LeaseKey): SessionState {
    s.(attempts := s.attempts - {key})
  }

  function TakeSnapshot(s: State): Snapshot {
    Snapshot(s.pm.g, s.pm.completed, s.pm.completedBytes)
  }

  /** One step of the session. `content` is the object being downloaded. */
  ghost function Apply(s: SessionState, e: Event, content: nat -> byte): SessionState
    requires Inv(s.sched) && Enabled(s, e)
  {
    match e
    case Schedule(op) => s.(sched := Step(s.sched, op))
    case Begin(key) =>
      var r := RangeOf(s.sched, key);
      Enqueue(s, BeginLease(key)).(attempts := s.attempts[key := Attempt(r.start, r.end, 0, Streaming)])
    case Forward(key, n) =>
      var a := s.attempts[key];
      var offset := a.start + a.forwarded;
      Enqueue(s, Data(key, offset, Chunk(content, offset, n))).(
        attempts := s.attempts[key := a.(forwarded := a.forwarded + n)], received := s.received + n)
    case Flush(key) =>
      Enqueue(s, FlushLease(key)).(
        attempts := s.attempts[key := s.attempts[key].(phase := Flushing(|s.queue|))])
    case Finish(key) =>
      Settle(s, key).(sched := CompleteLease(s.sched, key).0, acked := s.acked + AckedBy(s.sched, Complete(key)))
    case Keep(key) =>
      // The flush was acknowledged: hand the confirmed prefix to the scheduler, or report a stale lease.
      var confirmed := s.attempts[key].start + s.attempts[key].forwarded;
      if RetainPrefix(s.sched, key, confirmed).1 then
        Settle(s, key).(sched := RetainPrefix(s.sched, key, confirmed).0,
                        acked := s.acked + AckedBy(s.sched, Op.Retain(key, confirmed)))
      else Settle(s, key).(received := s.received - s.attempts[key].forwarded)
    case FlushFailed(key) => Settle(s, key).(received := s.received - s.attempts[key].forwarded)
    case Abandon(key) =>
      var a := s.attempts[key];
      s.(attempts := s.attempts[key := a.(forwarded := 0, phase := Abandoned)], received := s.received - a.forwarded)
    case Discard(key) =>
      if s.writer.alive then Enqueue(Settle(s, key), DiscardLease(key)) else Settle(s, key)
    case WriterStep =>
      s.(writer := Exec(s.writer, s.queue[0]), queue := s.queue[1..],
         attempts := map k | k in s.attempts :: Advance(s.attempts[k]),
         monitor := AdvanceMonitor(s.monitor))
    case WriterFails(kept) => s.(writer := s.writer.(alive := false, file := PartlyFlushed(s.writer, kept)))
    case Close =>
      var w := AfterFlush(s.writer);
      s.(writer := w.(alive := false, synced := w.file), closed := true)
    case Decide(reason, every) =>
      if reason.Terminal? then s.(monitor := Deciding(reason))
      else
        var (t, save) := ShouldSave(s.tracker, s.sched.pm.completedBytes, every);
        s.(tracker := t, monitor := if save then Deciding(reason) else Idle)
    case Freeze =>
      var snap := TakeSnapshot(s.sched);
      var stale := s.monitor.reason.Autosave? && snap.downloaded <= s.tracker.lastSaved;
      s.(monitor := if stale then Idle else Frozen(snap), sched := Step(s.sched, Hint))
    case Barrier =>
      if s.closed then s.(monitor := Durable(s.monitor.snap))
      else Enqueue(s, FlushAll(true)).(monitor := Waiting(s.monitor.snap, |s.queue|))
    case BarrierFails => s.(monitor := Idle)
    case Save =>
      s.(disk := Some(s.monitor.snap), tracker := Tracker(s.monitor.snap.downloaded, 0), monitor := Idle)
    case SaveFails => s.(monitor := Idle)
  }

  /** A failing writer may have written any part of its buffers. */
  ghost function PartlyFlushed(w: WriterState, kept: set<nat>): File {
    var f := Flushed(w.file, w.cache);
    map x | x in f && (x in w.file || x in kept) :: if x in kept || x !in w.file then f[x] else w.file[x]
  }

  // ----- what every reachable session satisfies

  function Forwards(attempts: map<LeaseKey, Attempt>): map<LeaseKey, nat> {
    map k | k in attempts :: attempts[k].forwarded
  }

  ghost predicate PhaseOk(s: SessionState, content: nat -> byte, key: LeaseKey, a: Attempt) {
    var hi := a.start + a.forwarded;
    match a.phase
    case Streaming =>
      var r := Replay(s.writer, s.queue);
      r.alive ==> key in r.active && Stored(r, content, key, a.start, hi)
    case Flushing(pos) =>
      && pos < |s.queue| && s.queue[pos] == FlushLease(key)
      && (var r := Replay(s.writer, s.queue[..pos]); r.alive ==> Stored(r, content, key, a.start, hi))
    case Confirmed => InFile(s.writer, content, a.start, hi)
    case Abandoned => a.forwarded == 0
  }

  ghost predicate AttemptsOk(s: SessionState, content: nat -> byte) {
    forall key :: key in s.attempts ==>
      && Active(s.sched, key) && RangeOf(s.sched, key) == ByteRange(s.attempts[key].start, s.attempts[key].end)
      && s.attempts[key].start + s.attempts[key].forwarded <= s.attempts[key].end
      && PhaseOk(s, content, key, s.attempts[key])
  }

  /** The snapshot's pieces, all of whose bytes are right in `file`. */
  ghost predicate Backed(snap: Snapshot, file: File, content: nat -> byte) {
    forall x: nat :: x < snap.g.totalSize && IsSet(snap.bits, PieceOf(snap.g, x)) ==> Good(file, content, x)
  }

  ghost predicate Subset(a: seq<bool>, b: seq<bool>) {
    |a| == |b| && forall p :: 0 <= p < |a| && a[p] ==> b[p]
  }

  /** A snapshot taken earlier in this session: its count fits its bits, and no piece was
      lost since. */
  ghost predicate SnapOk(s: SessionState, snap: Snapshot) {
    snap.g == s.sched.pm.g && SnapFits(snap) && Subset(snap.bits, s.sched.pm.completed)
  }

  /** The snapshot has a bit for each piece and counts the bytes of those set. */
  ghost predicate SnapFits(snap: Snapshot) {
    |snap.bits| == Count(snap.g) && snap.downloaded == SumTo(DoneBytes(snap.g, snap.bits), Count(snap.g))
  }

  ghost predicate MonitorOk(s: SessionState, content: nat -> byte) {
    match s.monitor
    case Idle => true
    case Deciding(_) => true
    case Frozen(snap) => PendingOk(s, snap, content)
    case Waiting(snap, pos) => PendingOk(s, snap, content) && pos < |s.queue| && s.queue[pos] == FlushAll(true)
    case Durable(snap) => PendingOk(s, snap, content) && Backed(snap, s.writer.synced, content)
  }

  ghost predicate PendingOk(s: SessionState, snap: Snapshot, content: nat -> byte) {
    SnapOk(s, snap) && Backed(snap, s.writer.file, content)
  }

  /** What a checkpoint on disk promises: each byte of each piece it marks complete is durably
      in the file with its right value. */
  ghost predicate CheckpointHolds(s: SessionState, content: nat -> byte) {
    s.disk.Some? ==> SnapFits(s.disk.value) && Backed(s.disk.value, s.writer.synced, content)
  }

  ghost predicate Pending(m: Monitor, snap: Snapshot) {
    match m
    case Frozen(sn) => sn == snap
    case Waiting(sn, _) => sn == snap
    case Durable(sn) => sn == snap
    case _ => false
  }

  /** The checkpoint on disk is one of this session: the save tracker knows it, and no piece
      was lost since, in memory or in the snapshot about to replace it. */
  ghost predicate TrackedOk(s: SessionState) {
    s.disk.Some? ==>
      && SnapOk(s, s.disk.value) && s.tracker.lastSaved == s.disk.value.downloaded
      && forall snap :: Pending(s.monitor, snap) ==> Subset(s.disk.value.bits, snap.bits)
  }

  ghost predicate FilesOk(s: SessionState, content: nat -> byte) {
    && WriterOk(s.writer, content, s.sched.pm.g.totalSize)
    && QueueOk(s.queue, content, s.sched.pm.g.totalSize)
    && (forall x :: x in s.acked ==> Good(s.writer.file, content, x))
    && (s.closed ==> !s.writer.alive && s.writer.synced == s.writer.file)
  }

  /** Received bytes are the acknowledged ones plus those forwarded by live attempts. */
  ghost predicate CountOk(s: SessionState) {
    s.received == |s.acked| + MapSum(Forwards(s.attempts))
  }

  ghost predicate SessionOk(s: SessionState, content: nat -> byte) {
    && AuditOk(Audit(s.sched, s.acked))
    && FilesOk(s, content) && AttemptsOk(s, content)
    && MonitorOk(s, content) && CountOk(s)
  }
}
