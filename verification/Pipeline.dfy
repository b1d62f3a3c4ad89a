/** The writer's queue as a pipeline: in every reachable session the commands on their way to
    the writer are in order, so it never refuses a chunk, and the buffers it holds never
    overlap, so every flush is a drain written block by block. */
module Pipeline {
  import opened Leases
  import opened Cache
  import opened Writer
  import opened Session

  /** A writer about to execute `c`: alive, with buffers that stay apart. */
  ghost predicate Orderly(w: WriterState, c: Cmd) {
    w.alive && AllApart(w.cache) && AllApart(Inserted(w, c))
  }

  ghost predicate QueueOrderly(w: WriterState, queue: seq<Cmd>) {
    forall i :: 0 <= i < |queue| ==> Orderly(Replay(w, queue[..i]), queue[i])
  }

  predicate IsStreaming(attempts: map<LeaseKey, Attempt>, key: LeaseKey) {
    key in attempts && attempts[key].phase == Streaming
  }

  /** The attempt's lease is open at the end of the queue: streaming, or not discarded yet. */
  predicate IsOpen(attempts: map<LeaseKey, Attempt>, key: LeaseKey) {
    IsStreaming(attempts, key) || (key in attempts && attempts[key].phase == Abandoned)
  }

  /** Once the queue is worked off, only open attempts have buffers, inside their leases, and
      each streaming one can continue where it stopped. */
  ghost predicate TailOk(attempts: map<LeaseKey, Attempt>, r: WriterState) {
    && r.alive
    && (forall key :: key in r.cache ==>
          && IsOpen(attempts, key) && r.cache[key].data != []
          && attempts[key].start <= r.cache[key].offset && r.cache[key].End() <= attempts[key].end)
    && (forall key :: IsStreaming(attempts, key) ==> Expects(r, key, attempts[key].start + attempts[key].forwarded))
  }

  ghost predicate PipeOk(s: SessionState) {
    s.writer.alive ==> QueueOrderly(s.writer, s.queue) && TailOk(s.attempts, Replay(s.writer, s.queue))
  }

  /** However the buffers `m` are drained, writing the blocks in order gives `file'`. */
  ghost predicate DrainGives(file: File, m: Buffers, file': File) {
    forall owners, blocks :: DrainedAs(m, owners, blocks) ==> NonOverlapping(blocks) && WriteAll(file, blocks) == file'
  }

  /** What a step that writes buffers leaves in the file. */
  ghost predicate FlushDrains(s: SessionState, e: Event, s': SessionState) {
    var w := s.writer;
    match e
    case WriterStep =>
      s.queue != [] ==>
        var c := s.queue[0];
        && (Flushes(w, c) ==> DrainGives(w.file, Inserted(w, c), s'.writer.file))
        && (c.FlushLease? ==> s'.writer.file == WriteAll(w.file, if c.key in w.cache then [w.cache[c.key]] else []))
    case Close => DrainGives(w.file, w.cache, s'.writer.file)
    case _ => true
  }

  ghost predicate WriterNeverFails(events: seq<Event>, k: nat) {
    forall i :: 0 <= i < k && i < |events| ==> !events[i].WriterFails?
  }
}

module PipelineLaws {
  import opened Arith
  import opened PieceMaps
  import opened Leases
  import opened SchedulerModel
  import opened SchedulerLaws
  import opened Cache
  import opened Writer
  import opened WriterLaws
  import opened Session
  import opened SessionLaws
  import opened SessionRuns
  import opened SessionTheorems
  import opened Pipeline

  // ----- the end of the queue

  lemma TailApart(s: SessionState, content: nat -> byte, r: WriterState)
    requires SessionOk(s, content) && TailOk(s.attempts, r)
    ensures Inv(s.sched) && AllApart(r.cache)
  {
    hide AuditOk, FilesOk, MonitorOk, CountOk, PhaseOk, Inv, AllApart, Active, RangeOf;
    AuditInv(Audit(s.sched, s.acked));
    AttemptParts(s, content);
    forall k | k in r.cache
      ensures Active(s.sched, k) && RangeOf(s.sched, k).start <= r.cache[k].offset
      ensures r.cache[k].End() <= RangeOf(s.sched, k).end && r.cache[k].data != []
    {
      assert IsOpen(s.attempts, k) && LeaseMatches(s, k, s.attempts[k]);
    }
    LeasedBuffersApart(s.sched, r.cache);
  }

  /** The buffers also stay apart while a forwarded chunk is being added. */
  lemma ForwardApart(s: SessionState, content: nat -> byte, r: WriterState, key: LeaseKey, data: seq<byte>)
    requires SessionOk(s, content) && TailOk(s.attempts, r) && Live(s, key, Streaming) && data != []
    requires s.attempts[key].start + s.attempts[key].forwarded + |data| <= s.attempts[key].end
    ensures AllApart(Inserted(r, Data(key, s.attempts[key].start + s.attempts[key].forwarded, data)))
  {
    hide AuditOk, FilesOk, MonitorOk, CountOk, PhaseOk, Inv, AllApart, Active, RangeOf;
    AuditInv(Audit(s.sched, s.acked));
    AttemptParts(s, content);
    var a := s.attempts[key];
    var m := Inserted(r, Data(key, a.start + a.forwarded, data));
    assert IsStreaming(s.attempts, key);
    forall k | k in m
      ensures Active(s.sched, k) && RangeOf(s.sched, k).start <= m[k].offset
      ensures m[k].End() <= RangeOf(s.sched, k).end && m[k].data != []
    {
      assert IsOpen(s.attempts, k) && LeaseMatches(s, k, s.attempts[k]);
    }
    LeasedBuffersApart(s.sched, m);
  }

  // ----- one more command

  lemma PipeEnqueue(s: SessionState, s': SessionState, c: Cmd)
    requires PipeOk(s) && s.writer.alive && s'.writer == s.writer && s'.queue == s.queue + [c]
    requires Orderly(Replay(s.writer, s.queue), c)
    requires TailOk(s'.attempts, Exec(Replay(s.writer, s.queue), c))
    ensures PipeOk(s')
  {
    hide Orderly, TailOk, Exec, Replay;
    ReplayAppend(s.writer, s.queue, c);
    forall i | 0 <= i < |s'.queue| ensures Orderly(Replay(s'.writer, s'.queue[..i]), s'.queue[i]) {
      if i < |s.queue| {
        assert s'.queue[..i] == s.queue[..i] && s'.queue[i] == s.queue[i];
      } else {
        assert s'.queue[..i] == s.queue && s'.queue[i] == c;
      }
    }
  }

  /** A command other than a chunk leaves what is cached apart. */
  lemma ControlOrderly(s: SessionState, content: nat -> byte, c: Cmd)
    requires SessionOk(s, content) && PipeOk(s) && s.writer.alive && !c.Data?
    ensures Orderly(Replay(s.writer, s.queue), c)
  {
    hide SessionOk, TailOk, AllApart, Replay;
    TailApart(s, content, Replay(s.writer, s.queue));
    TailAlive(s.attempts, Replay(s.writer, s.queue));
  }

  lemma TailAlive(attempts: map<LeaseKey, Attempt>, r: WriterState)
    requires TailOk(attempts, r)
    ensures r.alive
  {
  }

  lemma BeginTail(attempts: map<LeaseKey, Attempt>, r: WriterState, key: LeaseKey, a: Attempt)
    requires TailOk(attempts, r) && key !in attempts && a.phase == Streaming && a.forwarded == 0
    ensures TailOk(attempts[key := a], Exec(r, BeginLease(key)))
  {
    var r', next := Exec(r, BeginLease(key)), attempts[key := a];
    forall k | IsStreaming(next, k) ensures Expects(r', k, next[k].start + next[k].forwarded) {
      assert k != key ==> IsStreaming(attempts, k);
    }
  }

  /** Flushing or discarding a lease ends its attempt's streaming. */
  lemma EndTail(attempts: map<LeaseKey, Attempt>, r: WriterState, key: LeaseKey, c: Cmd,
                attempts': map<LeaseKey, Attempt>)
    requires TailOk(attempts, r) && (c == FlushLease(key) || c == DiscardLease(key))
    requires forall k :: IsOpen(attempts', k) <==> IsOpen(attempts, k) && k != key
    requires forall k :: IsOpen(attempts', k) ==> k in attempts && attempts'[k] == attempts[k]
    ensures TailOk(attempts', Exec(r, c))
  {
    hide WriteBlock;
    forall k | IsStreaming(attempts', k)
      ensures Expects(Exec(r, c), k, attempts'[k].start + attempts'[k].forwarded)
    {
      assert IsOpen(attempts', k);
      assert Expects(r, k, attempts[k].start + attempts[k].forwarded);
    }
  }

  lemma FlushAllTail(attempts: map<LeaseKey, Attempt>, r: WriterState, sync: bool)
    requires TailOk(attempts, r)
    ensures TailOk(attempts, Exec(r, FlushAll(sync)))
  {
    hide AfterFlush;
    AfterFlushSynced(r);
    forall k | IsStreaming(attempts, k)
      ensures Expects(Exec(r, FlushAll(sync)), k, attempts[k].start + attempts[k].forwarded)
    {
      assert Expects(r, k, attempts[k].start + attempts[k].forwarded);
    }
  }

  /** An expected chunk joins its lease's buffer, unless the watermark empties the cache. */
  lemma ChunkEffect(r: WriterState, key: LeaseKey, offset: nat, data: seq<byte>)
    requires Expects(r, key, offset) && data != []
    ensures var r' := Exec(r, Data(key, offset, data));
            var first := if key in r.cache then r.cache[key].offset else offset;
            && r'.alive && r'.active == r.active[key := Some(offset + |data|)]
            && (r'.cache == map[]
                || (r'.cache.Keys == r.cache.Keys + {key} && r'.cache[key].offset == first
                    && r'.cache[key].End() == offset + |data|
                    && forall k :: k in r.cache && k != key ==> r'.cache[k] == r.cache[k]))
  {
    hide AfterFlush, Buffered;
    var w1 := r.(cache := InsertChunk(r.cache, key, offset, data).0,
                 active := r.active[key := Some(offset + |data|)]);
    AfterFlushSynced(w1);
  }

  lemma ForwardTail(attempts: map<LeaseKey, Attempt>, r: WriterState, key: LeaseKey, data: seq<byte>)
    requires TailOk(attempts, r) && IsStreaming(attempts, key) && data != []
    requires attempts[key].start + attempts[key].forwarded + |data| <= attempts[key].end
    ensures var a := attempts[key];
            TailOk(attempts[key := a.(forwarded := a.forwarded + |data|)],
                   Exec(r, Data(key, a.start + a.forwarded, data)))
  {
    hide Exec;
    var a := attempts[key];
    var hi := a.start + a.forwarded;
    var next, r' := attempts[key := a.(forwarded := a.forwarded + |data|)], Exec(r, Data(key, hi, data));
    ChunkEffect(r, key, hi, data);
    forall k | IsStreaming(next, k) ensures Expects(r', k, next[k].start + next[k].forwarded) {
      assert k != key ==> IsStreaming(attempts, k) && next[k] == attempts[k];
    }
    forall k | k in r'.cache
      ensures IsOpen(next, k) && r'.cache[k].data != []
      ensures next[k].start <= r'.cache[k].offset && r'.cache[k].End() <= next[k].end
    {
      assert k != key ==> IsOpen(attempts, k) && next[k] == attempts[k];
    }
  }

  // ----- every step

  lemma PipeForward(s: SessionState, key: LeaseKey, n: nat, content: nat -> byte)
    requires SessionOk(s, content) && Inv(s.sched) && PipeOk(s) && Enabled(s, Forward(key, n))
    ensures PipeOk(Apply(s, Forward(key, n), content))
  {
    hide SessionOk, Inv, TailOk, AllApart, Exec, Replay;
    var a, r := s.attempts[key], Replay(s.writer, s.queue);
    var data := Chunk(content, a.start + a.forwarded, n);
    TailApart(s, content, r);
    TailAlive(s.attempts, r);
    ForwardApart(s, content, r, key, data);
    ForwardTail(s.attempts, r, key, data);
    PipeEnqueue(s, Apply(s, Forward(key, n), content), Data(key, a.start + a.forwarded, data));
  }

  lemma PipeCommand(s: SessionState, e: Event, content: nat -> byte)
    requires SessionOk(s, content) && Inv(s.sched) && PipeOk(s) && Enabled(s, e) && s.writer.alive
    requires e.Begin? || e.Flush? || e.Discard? || (e == Barrier && !s.closed)
    ensures PipeOk(Apply(s, e, content))
  {
    hide SessionOk, Inv, TailOk, Orderly, Exec, Replay;
    var r, s' := Replay(s.writer, s.queue), Apply(s, e, content);
    var c := s'.queue[|s.queue|];
    ControlOrderly(s, content, c);
    match e {
      case Begin(key) => BeginTail(s.attempts, r, key, s'.attempts[key]);
      case Flush(key) => EndTail(s.attempts, r, key, c, s'.attempts);
      case Discard(key) => EndTail(s.attempts, r, key, c, s'.attempts);
      case Barrier => FlushAllTail(s.attempts, r, true);
    }
    PipeEnqueue(s, s', c);
  }

  lemma SameStreams(attempts: map<LeaseKey, Attempt>, attempts': map<LeaseKey, Attempt>, r: WriterState)
    requires TailOk(attempts, r)
    requires forall k :: IsOpen(attempts, k) ==>
               IsOpen(attempts', k) && attempts'[k].start == attempts[k].start && attempts'[k].end == attempts[k].end
    requires forall k :: IsStreaming(attempts', k) ==> IsStreaming(attempts, k) && attempts'[k] == attempts[k]
    ensures TailOk(attempts', r)
  {
    hide Expects;
  }

  /** Steps that touch neither the writer nor its queue, and open no attempt. */
  lemma PipeAside(s: SessionState, e: Event, content: nat -> byte)
    requires Inv(s.sched) && PipeOk(s) && Enabled(s, e)
    requires e.Schedule? || e.Finish? || e.Keep? || e.Abandon? || e.Decide? || e == Freeze || e == Save
             || e == SaveFails || (e == Barrier && s.closed)
    ensures PipeOk(Apply(s, e, content))
  {
    hide Inv, TailOk, QueueOrderly, Replay, Step, CompleteLease, RetainPrefix, AckedBy;
    if s.writer.alive {
      SameStreams(s.attempts, Apply(s, e, content).attempts, Replay(s.writer, s.queue));
    }
  }

  lemma NextAlive(w: WriterState, queue: seq<Cmd>)
    requires queue != [] && Replay(w, queue).alive
    ensures Exec(w, queue[0]).alive && Replay(w, queue) == Replay(Exec(w, queue[0]), queue[1..])
  {
    hide Exec;
    if !Exec(w, queue[0]).alive {
      ReplayDead(Exec(w, queue[0]), queue[1..]);
    }
  }

  lemma PipeWriterStep(s: SessionState, content: nat -> byte)
    requires Inv(s.sched) && PipeOk(s) && Enabled(s, WriterStep)
    ensures Exec(s.writer, s.queue[0]).alive && PipeOk(Apply(s, WriterStep, content))
  {
    hide Inv, TailOk, Orderly, Exec;
    var s', r := Apply(s, WriterStep, content), Replay(s.writer, s.queue);
    TailAlive(s.attempts, r);
    NextAlive(s.writer, s.queue);
    SameStreams(s.attempts, s'.attempts, r);
    forall i | 0 <= i < |s'.queue| ensures Orderly(Replay(s'.writer, s'.queue[..i]), s'.queue[i]) {
      ReplayFirst(s.writer, s.queue, i + 1);
      assert Orderly(Replay(s.writer, s.queue[..i + 1]), s.queue[i + 1]);
    }
  }

  lemma PipeDead(s: SessionState, e: Event, content: nat -> byte)
    requires Inv(s.sched) && PipeOk(s) && Enabled(s, e)
    requires e.WriterFails? || e == Close || e.FlushFailed? || e == BarrierFails || (e.Discard? && !s.writer.alive)
    ensures PipeOk(Apply(s, e, content))
  {
    hide Inv, TailOk, QueueOrderly, Replay, AfterFlush, PartlyFlushed;
  }

  /** Every step of the session keeps the pipeline in order. */
  lemma PipeStep(s: SessionState, e: Event, content: nat -> byte)
    requires SessionOk(s, content) && Inv(s.sched) && PipeOk(s) && Enabled(s, e)
    ensures PipeOk(Apply(s, e, content))
  {
    hide SessionOk, Inv, PipeOk, Apply;
    match e {
      case Schedule(_) => PipeAside(s, e, content);
      case Begin(_) => PipeCommand(s, e, content);
      case Forward(key, n) => PipeForward(s, key, n, content);
      case Flush(_) => PipeCommand(s, e, content);
      case Finish(_) => PipeAside(s, e, content);
      case Keep(_) => PipeAside(s, e, content);
      case FlushFailed(_) => PipeDead(s, e, content);
      case Abandon(_) => PipeAside(s, e, content);
      case Discard(_) => if s.writer.alive { PipeCommand(s, e, content); } else { PipeDead(s, e, content); }
      case WriterStep => PipeWriterStep(s, content);
      case WriterFails(_) => PipeDead(s, e, content);
      case Close => PipeDead(s, e, content);
      case Decide(_, _) => PipeAside(s, e, content);
      case Freeze => PipeAside(s, e, content);
      case Barrier => if s.closed { PipeAside(s, e, content); } else { PipeCommand(s, e, content); }
      case BarrierFails => PipeDead(s, e, content);
      case Save => PipeAside(s, e, content);
      case SaveFails => PipeAside(s, e, content);
    }
  }

  lemma OpenPipe(pm: PieceMap, file: File, durable: File, disk: Option<Snapshot>, watermark: nat)
    ensures PipeOk(Open(pm, file, durable, disk, watermark))
  {
  }

  lemma {:induction false} PipeRun(states: seq<SessionState>, events: seq<Event>, content: nat -> byte, k: nat)
    requires Behaviour(states, events, content) && SessionOk(states[0], content) && PipeOk(states[0]) && k < |states|
    ensures SessionOk(states[k], content) && PipeOk(states[k])
  {
    hide Behaviour, SessionOk, PipeOk, Apply, Enabled;
    BehaviourOk(states, events, content, k);
    BehaviourShape(states, events, content);
    if k > 0 {
      PipeRun(states, events, content, k - 1);
      BehaviourStep(states, events, content, k - 1);
      PipeStep(states[k - 1], events[k - 1], content);
    }
  }

  // ----- what the pipeline gives

  lemma StepKeepsAlive(s: SessionState, e: Event, content: nat -> byte)
    requires Inv(s.sched) && PipeOk(s) && Enabled(s, e) && s.writer.alive && !e.WriterFails? && e != Close
    ensures Apply(s, e, content).writer.alive && Apply(s, e, content).closed == s.closed
  {
    hide Inv, PipeOk, Exec, Step, CompleteLease, RetainPrefix, AckedBy, Chunk;
    if e == WriterStep {
      PipeWriterStep(s, content);
    }
  }

  lemma ClosedStays(s: SessionState, e: Event, content: nat -> byte)
    requires Inv(s.sched) && Enabled(s, e) && s.closed
    ensures Apply(s, e, content).closed
  {
    hide Inv, Exec, Step, CompleteLease, RetainPrefix, AckedBy, Chunk, PartlyFlushed, AfterFlush;
  }

  lemma {:induction false} AliveRun(states: seq<SessionState>, events: seq<Event>, content: nat -> byte, k: nat)
    requires Behaviour(states, events, content) && SessionOk(states[0], content) && PipeOk(states[0])
    requires states[0].writer.alive && k < |states| && WriterNeverFails(events, k)
    ensures states[k].writer.alive || states[k].closed
  {
    hide Behaviour, SessionOk, PipeOk, Apply, Enabled;
    BehaviourShape(states, events, content);
    if k > 0 {
      AliveRun(states, events, content, k - 1);
      PipeRun(states, events, content, k - 1);
      BehaviourStep(states, events, content, k - 1);
      var s, e := states[k - 1], events[k - 1];
      if s.closed {
        ClosedStays(s, e, content);
      } else if e == Close {
        CloseCloses(s, content);
      } else {
        StepKeepsAlive(s, e, content);
      }
    }
  }

  lemma CloseCloses(s: SessionState, content: nat -> byte)
    requires Inv(s.sched) && Enabled(s, Close)
    ensures Apply(s, Close, content).closed
    ensures Apply(s, Close, content).writer.file == Flushed(s.writer.file, s.writer.cache)
  {
    hide Inv, Flushed;
  }

  /** The session's own commands never end the writer: in every run, from a fresh start or a
      resume, it is alive until it fails on input or output or is closed. */
  lemma WriterStaysAlive(pm: PieceMap, file: File, durable: File, disk: Option<Snapshot>, watermark: nat,
                         content: nat -> byte, states: seq<SessionState>, events: seq<Event>, k: nat)
    requires SoundStart(pm, file, durable, content)
    requires Behaviour(states, events, content) && k < |states| && WriterNeverFails(events, k)
    requires states[0] == Open(pm, file, durable, disk, watermark)
    ensures states[k].writer.alive || states[k].closed
  {
    hide Behaviour, SoundStart, SessionOk, PipeOk, WriterNeverFails;
    OpenOk(pm, file, durable, disk, watermark, content);
    OpenPipe(pm, file, durable, disk, watermark);
    AliveRun(states, events, content, k);
  }

  lemma ApartDrains(file: File, m: Buffers)
    requires AllApart(m)
    ensures DrainGives(file, m, Flushed(file, m))
  {
    hide AllApart, DrainedAs, NonOverlapping, WriteAll, Flushed;
    forall owners, blocks | DrainedAs(m, owners, blocks)
      ensures NonOverlapping(blocks) && WriteAll(file, blocks) == Flushed(file, m)
    {
      DrainedBlocksNonOverlapping(m, owners, blocks);
      DrainThenWrite(file, m, owners, blocks);
    }
  }

  lemma FlushingFile(w: WriterState, c: Cmd)
    requires w.alive && Flushes(w, c) && Exec(w, c).alive
    ensures Exec(w, c).file == Flushed(w.file, Inserted(w, c))
  {
    hide Flushed, Buffered;
  }

  lemma FlushStepDrains(s: SessionState, content: nat -> byte)
    requires Inv(s.sched) && PipeOk(s) && Enabled(s, WriterStep)
    ensures FlushDrains(s, WriterStep, Apply(s, WriterStep, content))
  {
    hide Inv, TailOk, AllApart, Exec, DrainGives, Flushes, Flushed, Inserted;
    var w, c := s.writer, s.queue[0];
    PipeWriterStep(s, content);
    assert s.queue[..0] == [] && Orderly(Replay(w, s.queue[..0]), c);
    if Flushes(w, c) {
      FlushingFile(w, c);
      ApartDrains(w.file, Inserted(w, c));
    }
    if c.FlushLease? {
      LeaseFlushFile(w, c);
    }
  }

  lemma LeaseFlushFile(w: WriterState, c: Cmd)
    requires w.alive && c.FlushLease?
    ensures Exec(w, c).file == WriteAll(w.file, if c.key in w.cache then [w.cache[c.key]] else [])
  {
    hide WriteBlock;
    if c.key in w.cache {
      assert [w.cache[c.key]][..0] == [];
    }
  }

  lemma CloseDrains(s: SessionState, content: nat -> byte)
    requires SessionOk(s, content) && Inv(s.sched) && PipeOk(s) && Enabled(s, Close)
    ensures FlushDrains(s, Close, Apply(s, Close, content))
  {
    hide SessionOk, Inv, TailOk, AllApart, DrainGives, Flushed;
    CloseCloses(s, content);
    TailApart(s, content, s.writer);
    ApartDrains(s.writer.file, s.writer.cache);
  }

  /** Every flush of every run is a drain: the watermark, a barrier and the close write the
      cached buffers, which never overlap, block by block in file order, and a lease's flush
      writes its one buffer. */
  lemma EveryFlushDrains(pm: PieceMap, file: File, durable: File, disk: Option<Snapshot>, watermark: nat,
                         content: nat -> byte, states: seq<SessionState>, events: seq<Event>, k: nat)
    requires SoundStart(pm, file, durable, content)
    requires Behaviour(states, events, content) && k < |events| && k + 1 < |states|
    requires states[0] == Open(pm, file, durable, disk, watermark)
    ensures FlushDrains(states[k], events[k], states[k + 1])
  {
    hide Behaviour, SoundStart, SessionOk, PipeOk, Apply, Enabled;
    OpenOk(pm, file, durable, disk, watermark, content);
    OpenPipe(pm, file, durable, disk, watermark);
    PipeRun(states, events, content, k);
    BehaviourStep(states, events, content, k);
    if events[k] == WriterStep {
      FlushStepDrains(states[k], content);
    } else if events[k] == Close {
      CloseDrains(states[k], content);
    }
  }
}
