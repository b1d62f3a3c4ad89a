/** Runs built one step at a time. */
module Traces {
  import opened SchedulerModel
  import opened Cache
  import opened Session
  import opened SessionLaws
  import opened SessionRuns
  import opened SessionTheorems
  import opened Pipeline
  import opened PipelineLaws

  datatype Trace = Trace(states: seq<SessionState>, events: seq<Event>)

  function Last(t: Trace): SessionState
    requires |t.states| == |t.events| + 1
  {
    t.states[|t.events|]
  }

  /** A run whose last state is sound. */
  ghost predicate IsRun(t: Trace, content: nat -> byte) {
    && |t.states| == |t.events| + 1 && Behaviour(t.states, t.events, content)
    && SessionOk(Last(t), content) && PipeOk(Last(t))
  }

  /** `t'` goes on where `t` ends. */
  ghost predicate Continues(t: Trace, t': Trace) {
    && |t.states| <= |t'.states| && |t.events| <= |t'.events|
    && (forall i :: 0 <= i < |t.states| ==> t'.states[i] == t.states[i])
    && (forall i :: 0 <= i < |t.events| ==> t'.events[i] == t.events[i])
  }

  lemma ContinuesTrans(t: Trace, t1: Trace, t2: Trace)
    requires Continues(t, t1) && Continues(t1, t2)
    ensures Continues(t, t2)
  {
  }

  /** One more step. */
  lemma Do(t: Trace, e: Event, content: nat -> byte) returns (t': Trace)
    requires IsRun(t, content) && Enabled(Last(t), e)
    ensures IsRun(t', content) && Continues(t, t') && Inv(Last(t).sched)
    ensures Last(t') == Apply(Last(t), e, content) && t'.events == t.events + [e]
    ensures Last(t).writer.alive && !e.WriterFails? && e != Close ==> Last(t').writer.alive
  {
    hide SessionOk, PipeOk, Apply, Enabled, Inv;
    var s := Last(t);
    StepKeeps(s, e, content);
    PipeStep(s, e, content);
    var s' := Apply(s, e, content);
    t' := Trace(t.states + [s'], t.events + [e]);
    forall i | 0 <= i < |t'.events|
      ensures Inv(t'.states[i].sched) && Enabled(t'.states[i], t'.events[i])
      ensures t'.states[i + 1] == Apply(t'.states[i], t'.events[i], content)
    {
      if i < |t.events| {
        BehaviourStep(t.states, t.events, content, i);
        assert t'.states[i] == t.states[i] && t'.events[i] == t.events[i] && t'.states[i + 1] == t.states[i + 1];
      } else {
        assert t'.states[i] == s && t'.events[i] == e && t'.states[i + 1] == s';
      }
    }
    if s.writer.alive && !e.WriterFails? && e != Close {
      StepKeepsAlive(s, e, content);
    }
  }
}

/** When the monitor saves, and what a session can always still do: save what it froze, bring
    any attempt to its end, and finish the download. */
module Progress {
  import opened Arith
  import opened Ranges
  import opened PieceMaps
  import opened Leases
  import opened SchedulerModel
  import opened SchedulerLaws
  import opened SchedulerTheorems
  import opened LeaseChanges
  import opened Counting
  import opened Cache
  import opened Writer
  import opened Session
  import opened SessionLaws
  import opened SessionRuns
  import opened SessionTheorems
  import opened Pipeline
  import opened PipelineLaws
  import opened Traces

  // ----- when an autosave saves

  /** More bytes are complete than the last save recorded. */
  predicate HasNews(s: SessionState) {
    s.sched.pm.completedBytes > s.tracker.lastSaved
  }

  predicate IsTick(e: Event) {
    e.Decide? && e.reason.Autosave?
  }

  /** Autosave tick `i` found new bytes. */
  predicate NewsAt(states: seq<SessionState>, events: seq<Event>, i: nat)
    requires i < |events| <= |states|
  {
    IsTick(events[i]) && HasNews(states[i])
  }

  /** Event `i` starts the count afresh: a save, or a tick that found nothing new. */
  predicate Resets(states: seq<SessionState>, events: seq<Event>, i: nat)
    requires i < |events| <= |states|
  {
    events[i] == Save || (IsTick(events[i]) && !HasNews(states[i]))
  }

  /** The ticks before `k` that found new bytes, since the count last started afresh. */
  ghost function TicksWithNews(states: seq<SessionState>, events: seq<Event>, k: nat): set<nat>
    requires k <= |events| <= |states|
  {
    set i: nat | i < k && NewsAt(states, events, i) && forall j: nat :: i < j < k ==> !Resets(states, events, j)
  }

  lemma TicksGrow(states: seq<SessionState>, events: seq<Event>, k: nat)
    requires k < |events| <= |states|
    ensures var ticks, ticks' := TicksWithNews(states, events, k), TicksWithNews(states, events, k + 1);
            && k !in ticks
            && (Resets(states, events, k) ==> ticks' == {})
            && (NewsAt(states, events, k) ==> ticks' == ticks + {k})
            && (!Resets(states, events, k) && !NewsAt(states, events, k) ==> ticks' == ticks)
  {
    hide HasNews;
    var ticks, ticks' := TicksWithNews(states, events, k), TicksWithNews(states, events, k + 1);
    if Resets(states, events, k) {
      assert ticks' == {};
    } else {
      assert forall i: nat :: i < k ==> (i in ticks' <==> i in ticks);
    }
  }

  lemma TrackerStep(s: SessionState, e: Event, content: nat -> byte)
    requires Inv(s.sched) && Enabled(s, e)
    ensures var ticks' := Apply(s, e, content).tracker.ticks;
            if e == Save || (IsTick(e) && !HasNews(s)) then ticks' == 0
            else if IsTick(e) then ticks' == s.tracker.ticks + 1
            else ticks' == s.tracker.ticks
  {
    hide Inv, Step, CompleteLease, RetainPrefix, AckedBy, Exec, Chunk, PartlyFlushed, AfterFlush;
  }

  /** The tick counter counts the ticks with news. */
  lemma {:induction false} TrackerCounts(states: seq<SessionState>, events: seq<Event>, content: nat -> byte, k: nat)
    requires Behaviour(states, events, content) && k < |states| && states[0].tracker.ticks == 0
    ensures |states| == |events| + 1 && states[k].tracker.ticks == |TicksWithNews(states, events, k)|
  {
    hide Behaviour, Apply, Enabled, HasNews, IsTick, TicksWithNews;
    BehaviourShape(states, events, content);
    if k == 0 {
      NoTicksYet(states, events);
    } else {
      TrackerCounts(states, events, content, k - 1);
      BehaviourStep(states, events, content, k - 1);
      TrackerStep(states[k - 1], events[k - 1], content);
      TicksGrow(states, events, k - 1);
    }
  }

  lemma NoTicksYet(states: seq<SessionState>, events: seq<Event>)
    requires |events| <= |states|
    ensures TicksWithNews(states, events, 0) == {}
  {
  }

  /** What `every` and the completed bytes decide, on every run of a session. An autosave tick
      goes on to save exactly when there are new bytes and at least `every` ticks, this one
      included, found some since the last save or the last tick that found none; a terminal save
      always goes on. A freeze stops only an autosave that has nothing new by then, and otherwise
      holds the current bits. */
  lemma SavesWhenDue(pm: PieceMap, file: File, durable: File, disk: Option<Snapshot>, watermark: nat,
                     content: nat -> byte, states: seq<SessionState>, events: seq<Event>, k: nat)
    requires Behaviour(states, events, content) && k < |events| && k + 1 < |states|
    requires states[0] == Open(pm, file, durable, disk, watermark)
    ensures var s, s' := states[k], states[k + 1];
            && (forall every :: events[k] == Decide(Autosave, every) ==>
                  (!s'.monitor.Idle? <==> HasNews(s) && |TicksWithNews(states, events, k + 1)| >= every))
            && (forall every :: events[k] == Decide(Terminal, every) ==> s'.monitor == Deciding(Terminal))
            && (events[k] == Freeze ==>
                  && s'.monitor == (if s.monitor == Deciding(Autosave) && !HasNews(s) then Idle
                                    else Frozen(TakeSnapshot(s.sched)))
                  && s'.sched == s.sched.(snapshotSeq := s.sched.snapshotSeq + 1) && s'.tracker == s.tracker)
  {
    hide Behaviour, TicksWithNews, Inv;
    BehaviourStep(states, events, content, k);
    TrackerCounts(states, events, content, k);
    TicksGrow(states, events, k);
  }

  // ----- working off the queue

  ghost predicate Working(t: Trace, content: nat -> byte) {
    IsRun(t, content) && Last(t).writer.alive && !Last(t).closed
  }

  /** The attempt once its flush, if it waits for one, is acknowledged. */
  function Acknowledged(a: Attempt): Attempt {
    if a.phase.Flushing? then a.(phase := Confirmed) else a
  }

  function AcknowledgedAll(attempts: map<LeaseKey, Attempt>): map<LeaseKey, Attempt> {
    map k | k in attempts :: Acknowledged(attempts[k])
  }

  function Arrived(m: Monitor): Monitor {
    if m.Waiting? then Durable(m.snap) else m
  }

  function Steps(n: nat): seq<Event> {
    seq(n, _ => WriterStep)
  }

  lemma QueuePositions(s: SessionState, content: nat -> byte)
    requires SessionOk(s, content)
    ensures forall k :: k in s.attempts && s.attempts[k].phase.Flushing? ==> s.attempts[k].phase.pos < |s.queue|
    ensures s.monitor.Waiting? ==> s.monitor.pos < |s.queue|
  {
    hide AuditOk, FilesOk, CountOk, PendingOk;
    forall k | k in s.attempts && s.attempts[k].phase.Flushing?
      ensures s.attempts[k].phase.pos < |s.queue|
    {
      assert PhaseOk(s, content, k, s.attempts[k]);
    }
  }

  /** A live writer can always work off its queue: every waiting flush and barrier is then
      acknowledged, and nothing else of the session has changed. */
  lemma {:induction false} Drain(t: Trace, content: nat -> byte) returns (t': Trace)
    requires Working(t, content)
    ensures Working(t', content) && Continues(t, t')
    ensures t'.events == t.events + Steps(|Last(t).queue|)
    ensures var s, s' := Last(t), Last(t');
            && s'.queue == [] && s'.attempts == AcknowledgedAll(s.attempts) && s'.monitor == Arrived(s.monitor)
            && s'.sched == s.sched && s'.acked == s.acked && s'.received == s.received
            && s'.tracker == s.tracker && s'.disk == s.disk
    decreases |Last(t).queue|
  {
    hide SessionOk, PipeOk, Behaviour, Inv, Exec;
    var s := Last(t);
    QueuePositions(s, content);
    if s.queue == [] {
      t' := t;
      assert AcknowledgedAll(s.attempts) == s.attempts;
      assert t.events + Steps(0) == t.events;
    } else {
      var t1 := Do(t, WriterStep, content);
      t' := Drain(t1, content);
      assert AcknowledgedAll(Last(t1).attempts) == AcknowledgedAll(s.attempts);
      assert t.events + [WriterStep] + Steps(|s.queue| - 1) == t.events + Steps(|s.queue|);
    }
  }

  // ----- what is frozen can be saved

  /** From a frozen snapshot, a barrier, the writer's work and a save put exactly its bits on
      disk. */
  lemma FrozenCanBeSaved(t: Trace, content: nat -> byte) returns (t': Trace)
    requires Working(t, content) && Last(t).monitor.Frozen?
    ensures Working(t', content) && Continues(t, t')
    ensures t'.events == t.events + [Barrier] + Steps(|Last(t).queue| + 1) + [Save]
    ensures var s, s' := Last(t), Last(t');
            && s'.disk == Some(s.monitor.snap) && s'.tracker == Tracker(s.monitor.snap.downloaded, 0)
            && s'.monitor == Idle && s'.sched == s.sched && s'.queue == []
            && s'.acked == s.acked && s'.received == s.received
            && s'.attempts == AcknowledgedAll(s.attempts)
  {
    hide SessionOk, PipeOk, Behaviour, Inv, Exec, AcknowledgedAll, Steps;
    var t1 := Do(t, Barrier, content);
    var t2 := Drain(t1, content);
    t' := Do(t2, Save, content);
  }

  /** The same for the last save, after the session closed its writer. */
  lemma ClosedCanBeSaved(t: Trace, content: nat -> byte) returns (t': Trace)
    requires IsRun(t, content) && Last(t).closed && Last(t).monitor.Frozen?
    ensures IsRun(t', content) && Continues(t, t') && t'.events == t.events + [Barrier] + [Save]
    ensures Last(t').disk == Some(Last(t).monitor.snap) && Last(t').monitor == Idle && Last(t').sched == Last(t).sched
  {
    hide SessionOk, PipeOk, Behaviour, Inv;
    var t1 := Do(t, Barrier, content);
    t' := Do(t1, Save, content);
  }

  // ----- an attempt can be brought to its end

  /** The attempt on lease `key` is streamed up to `n` bytes and acknowledged. */
  lemma StreamAndFlush(t: Trace, key: LeaseKey, n: nat, content: nat -> byte) returns (t': Trace)
    requires Working(t, content) && Active(Last(t).sched, key) && key !in Last(t).attempts
    requires 0 < n <= RangeOf(Last(t).sched, key).end - RangeOf(Last(t).sched, key).start
    ensures Working(t', content) && Continues(t, t')
    ensures var s, s' := Last(t), Last(t');
            && s'.sched == s.sched && s'.acked == s.acked && s'.received == s.received + n && s'.queue == []
            && s'.tracker == s.tracker && s'.disk == s.disk && s'.monitor == Arrived(s.monitor)
            && s'.attempts == AcknowledgedAll(s.attempts)[key := Attempt(RangeOf(s.sched, key).start,
                                                                          RangeOf(s.sched, key).end, n, Confirmed)]
  {
    hide SessionOk, PipeOk, Behaviour, Inv, Exec, Chunk;
    var s := Last(t);
    var r := RangeOf(s.sched, key);
    var t1 := Do(t, Begin(key), content);
    var t2 := Do(t1, Forward(key, n), content);
    var t3 := Do(t2, Flush(key), content);
    t' := Drain(t3, content);
    assert AcknowledgedAll(Last(t3).attempts)
        == AcknowledgedAll(s.attempts)[key := Attempt(r.start, r.end, n, Confirmed)];
  }

  /** A lease without an attempt can be completed: all its bytes are acknowledged and right in
      the file, and counted once. */
  lemma LeaseCanComplete(t: Trace, key: LeaseKey, content: nat -> byte) returns (t': Trace)
    requires Working(t, content) && Active(Last(t).sched, key) && key !in Last(t).attempts
    ensures Working(t', content) && Continues(t, t')
    ensures var s, s' := Last(t), Last(t');
            && !Active(s'.sched, key) && s'.acked == s.acked + BytesOf(RangeOf(s.sched, key))
            && s'.received == s.received + (RangeOf(s.sched, key).end - RangeOf(s.sched, key).start)
            && s'.attempts == AcknowledgedAll(s.attempts) && s'.monitor == Arrived(s.monitor) && s'.queue == []
            && s'.sched.stopped == s.sched.stopped && s'.sched.pm.g == s.sched.pm.g
            && forall x :: x in s'.acked ==> Good(s'.writer.file, content, x)
  {
    hide SessionOk, PipeOk, Behaviour, Inv, Exec, CompleteLease, BytesOf;
    var s := Last(t);
    var r := RangeOf(s.sched, key);
    LeaseFacts(s, key, content);
    var t1 := StreamAndFlush(t, key, r.end - r.start, content);
    t' := Do(t1, Finish(key), content);
    assert AcknowledgedAll(s.attempts)[key := Last(t1).attempts[key]] - {key} == AcknowledgedAll(s.attempts);
    AckedIsGood(Last(t'), content);
  }

  lemma LeaseFacts(s: SessionState, key: LeaseKey, content: nat -> byte)
    requires SessionOk(s, content) && Active(s.sched, key)
    ensures Inv(s.sched) && RangeOf(s.sched, key).start < RangeOf(s.sched, key).end
    ensures var s' := CompleteLease(s.sched, key).0;
            !Active(s', key) && s'.stopped == s.sched.stopped && s'.pm.g == s.sched.pm.g
  {
    hide FilesOk, AttemptsOk, MonitorOk, CountOk, Unacked;
    ActiveBounds(s.sched, key);
  }

  lemma AckedIsGood(s: SessionState, content: nat -> byte)
    requires SessionOk(s, content)
    ensures forall x :: x in s.acked ==> Good(s.writer.file, content, x)
  {
    hide AuditOk, AttemptsOk, MonitorOk, CountOk, WriterOk, QueueOk;
  }

  /** A prefix of it can be kept: the lease goes on behind it. */
  lemma PrefixCanBeKept(t: Trace, key: LeaseKey, n: nat, content: nat -> byte) returns (t': Trace)
    requires Working(t, content) && Active(Last(t).sched, key) && key !in Last(t).attempts
    requires 0 < n < RangeOf(Last(t).sched, key).end - RangeOf(Last(t).sched, key).start
    ensures Working(t', content) && Continues(t, t')
    ensures var s, s', r := Last(t), Last(t'), RangeOf(Last(t).sched, key);
            && Active(s'.sched, key) && RangeOf(s'.sched, key) == ByteRange(r.start + n, r.end)
            && s'.acked == s.acked + BytesOf(ByteRange(r.start, r.start + n)) && s'.received == s.received + n
            && s'.attempts == AcknowledgedAll(s.attempts)
            && forall x :: x in s'.acked ==> Good(s'.writer.file, content, x)
  {
    hide SessionOk, PipeOk, Behaviour, Inv, Exec, BytesOf;
    var s := Last(t);
    var t1 := StreamAndFlush(t, key, n, content);
    t' := Do(t1, Keep(key), content);
    assert AcknowledgedAll(s.attempts)[key := Last(t1).attempts[key]] - {key} == AcknowledgedAll(s.attempts);
    AckedIsGood(Last(t'), content);
  }

  /** And it can be given up after any number of bytes: nothing of it stays acknowledged,
      counted or buffered. */
  lemma AttemptCanGiveUp(t: Trace, key: LeaseKey, n: nat, content: nat -> byte) returns (t': Trace)
    requires Working(t, content) && Active(Last(t).sched, key) && key !in Last(t).attempts
    requires 0 < n <= RangeOf(Last(t).sched, key).end - RangeOf(Last(t).sched, key).start
    ensures Working(t', content) && Continues(t, t')
    ensures var s, s' := Last(t), Last(t');
            && s'.sched == s.sched && s'.acked == s.acked && s'.received == s.received
            && s'.attempts == AcknowledgedAll(s.attempts) && key !in s'.writer.cache
  {
    hide SessionOk, PipeOk, Behaviour;
    t' := GiveUp(t, key, n, content);
    OnlyOpenBuffers(Last(t'), key);
  }

  lemma GiveUp(t: Trace, key: LeaseKey, n: nat, content: nat -> byte) returns (t': Trace)
    requires Working(t, content) && Active(Last(t).sched, key) && key !in Last(t).attempts
    requires 0 < n <= RangeOf(Last(t).sched, key).end - RangeOf(Last(t).sched, key).start
    ensures Working(t', content) && Continues(t, t')
    ensures var s, s' := Last(t), Last(t');
            && s'.sched == s.sched && s'.acked == s.acked && s'.received == s.received
            && s'.attempts == AcknowledgedAll(s.attempts) && s'.queue == []
  {
    hide SessionOk, PipeOk, Behaviour, Inv, Exec, Chunk;
    var s := Last(t);
    var t1 := Do(t, Begin(key), content);
    var t2 := Do(t1, Forward(key, n), content);
    var t3 := Do(t2, Abandon(key), content);
    var t4 := Do(t3, Discard(key), content);
    t' := Drain(t4, content);
    assert Last(t4).attempts == s.attempts;
  }

  lemma OnlyOpenBuffers(s: SessionState, key: LeaseKey)
    requires PipeOk(s) && s.writer.alive && s.queue == [] && key !in s.attempts
    ensures key !in s.writer.cache
  {
    hide QueueOrderly, Expects;
    assert Replay(s.writer, s.queue) == s.writer;
  }

  /** A lease without an attempt can be taken back or handed to another worker at any time, and
      the scheduler stopped, without a change to anything else. */
  lemma LeaseCanMove(t: Trace, key: LeaseKey, worker: nat, content: nat -> byte)
    returns (reclaimed: Trace, renewed: Trace, stopped: Trace, seg: Segment)
    requires Working(t, content) && Active(Last(t).sched, key) && key !in Last(t).attempts
    ensures Working(reclaimed, content) && Working(renewed, content) && Working(stopped, content)
    ensures Continues(t, reclaimed) && Continues(t, renewed) && Continues(t, stopped)
    ensures var s := Last(t);
            && Last(reclaimed) == s.(sched := Last(reclaimed).sched)
            && Reclaimed(s.sched, Last(reclaimed).sched, key)
            && Last(renewed) == s.(sched := Last(renewed).sched)
            && Renewed(s.sched, Last(renewed).sched, key, worker, seg)
            && Last(stopped) == s.(sched := s.sched.(stopped := true))
  {
    hide SessionOk, PipeOk, Behaviour, Inv, Reclaimed, Renewed, RenewLease, ReclaimLease;
    var s := Last(t);
    LeaseFacts(s, key, content);
    ActiveBounds(s.sched, key);
    InvShape(s.sched);
    RenewExact(s.sched, key, worker);
    ReclaimExact(s.sched, key);
    reclaimed := Do(t, Schedule(Op.Reclaim(key)), content);
    renewed := Do(t, Schedule(Op.Renew(key, worker)), content);
    stopped := Do(t, Schedule(Op.Stop), content);
    seg := RenewLease(s.sched, key, worker).1.value;
  }

  // ----- the download can be finished

  /** One attempt whose flush is not under way can be ended at once. */
  lemma EndOne(t: Trace, key: LeaseKey, content: nat -> byte) returns (t': Trace)
    requires Working(t, content) && key in Last(t).attempts && !Last(t).attempts[key].phase.Flushing?
    ensures Working(t', content) && Continues(t, t')
    ensures Last(t').attempts == Last(t).attempts - {key}
    ensures Last(t').sched.stopped == Last(t).sched.stopped && Last(t').sched.pm.g == Last(t).sched.pm.g
    ensures Last(t').monitor == Last(t).monitor && Last(t).acked <= Last(t').acked
  {
    hide SessionOk, PipeOk, Behaviour, Inv, Exec, AckedBy;
    var a := Last(t).attempts[key];
    match a.phase {
      case Streaming =>
        var t1 := Do(t, Abandon(key), content);
        t' := Do(t1, Discard(key), content);
        assert Last(t1).attempts - {key} == Last(t).attempts - {key};
      case Abandoned => t' := Do(t, Discard(key), content);
      case Confirmed => t' := Do(t, Keep(key), content);
    }
  }

  /** All attempts can be ended. */
  lemma {:induction false} EndAll(t: Trace, content: nat -> byte) returns (t': Trace)
    requires Working(t, content) && forall k :: k in Last(t).attempts ==> !Last(t).attempts[k].phase.Flushing?
    ensures Working(t', content) && Continues(t, t') && Last(t').attempts == map[]
    ensures Last(t').sched.stopped == Last(t).sched.stopped && Last(t').sched.pm.g == Last(t).sched.pm.g
    ensures Last(t').monitor == Last(t).monitor && Last(t).acked <= Last(t').acked
    decreases |Last(t).attempts|
  {
    hide SessionOk, PipeOk, Behaviour;
    if Last(t).attempts == map[] {
      t' := t;
    } else {
      var key :| key in Last(t).attempts;
      var t1 := EndOne(t, key, content);
      assert Last(t1).attempts.Keys == Last(t).attempts.Keys - {key};
      t' := EndAll(t1, content);
    }
  }

  /** Some byte not acknowledged yet can be, with all others of a lease that holds it. */
  lemma OneMoreByte(t: Trace, x: nat, content: nat -> byte) returns (t': Trace)
    requires Working(t, content) && Last(t).attempts == map[] && !Last(t).sched.stopped
    requires x < Last(t).sched.pm.g.totalSize && x !in Last(t).acked
    ensures Working(t', content) && Continues(t, t') && Last(t').attempts == map[]
    ensures Last(t').sched.pm.g == Last(t).sched.pm.g && !Last(t').sched.stopped
    ensures x in Last(t').acked && Last(t).acked <= Last(t').acked && Last(t').monitor == Arrived(Last(t).monitor)
  {
    hide SessionOk, PipeOk, Behaviour, Inv, Missing, LeasedBy;
    var s := Last(t);
    var t1, key := LeaseHolding(t, x, content);
    t' := LeaseCanComplete(t1, key, content);
    CoversByte(Last(t1).sched, key, x);
    assert AcknowledgedAll(map[]) == map[];
  }

  lemma CoversByte(s: State, key: LeaseKey, x: nat)
    requires LeasedBy(s, key, x)
    ensures x in BytesOf(RangeOf(s, key))
  {
  }

  /** A byte not acknowledged is on a lease, or can be leased. */
  lemma LeaseHolding(t: Trace, x: nat, content: nat -> byte) returns (t': Trace, key: LeaseKey)
    requires Working(t, content) && Last(t).attempts == map[] && !Last(t).sched.stopped
    requires x < Last(t).sched.pm.g.totalSize && x !in Last(t).acked
    ensures Working(t', content) && Continues(t, t') && Last(t').attempts == map[]
    ensures Last(t').sched.pm == Last(t).sched.pm && !Last(t').sched.stopped
    ensures Last(t').acked == Last(t).acked && Last(t').monitor == Last(t).monitor
    ensures Active(Last(t').sched, key) && LeasedBy(Last(t').sched, key, x)
  {
    hide SessionOk, PipeOk, Behaviour, Inv, Missing, Step;
    var s := Last(t);
    Unfinished(s, x, content);
    if Missing(s.sched, x) {
      var p := PieceOf(s.sched.pm.g, x);
      key := LeaseByte(s.sched, x);
      t' := Do(t, Schedule(Op.Issue(p, ByteRange(x, x + 1), 0)), content);
    } else {
      key :| LeasedBy(s.sched, key, x);
      t' := t;
    }
  }

  lemma Unfinished(s: SessionState, x: nat, content: nat -> byte)
    requires SessionOk(s, content) && x < s.sched.pm.g.totalSize && x !in s.acked
    ensures Inv(s.sched) && (Missing(s.sched, x) || exists key :: LeasedBy(s.sched, key, x))
  {
    hide FilesOk, AttemptsOk, MonitorOk, CountOk, AuditOk, Inv, Missing, LeasedBy;
    AuditInv(Audit(s.sched, s.acked));
    BytesPartitioned(Audit(s.sched, s.acked), x);
  }

  lemma LeaseByte(s: State, x: nat) returns (key: LeaseKey)
    requires Inv(s) && Missing(s, x) && !s.stopped
    ensures var s' := Step(s, Op.Issue(PieceOf(s.pm.g, x), ByteRange(x, x + 1), 0));
            Active(s', key) && LeasedBy(s', key, x) && s'.pm == s.pm && !s'.stopped
  {
    hide Inv, Missing, Granted, SameWork, IssueLease, Start, End, Count, IsComplete;
    var p, r := PieceOf(s.pm.g, x), ByteRange(x, x + 1);
    MissingIsIssuable(s, x);
    var s', seg := IssueEffect(s, p, r, 0);
    assert forall y: nat :: Covers(r, y) ==> y == x;
    key := seg.value.Key();
    GrantedOne(s, s', seg.value);
  }

  lemma MissingIsIssuable(s: State, x: nat)
    requires Missing(s, x)
    ensures Issuable(s, PieceOf(s.pm.g, x), ByteRange(x, x + 1))
  {
    PieceOfUnique(s.pm.g, x, PieceOf(s.pm.g, x));
  }

  lemma GrantedOne(s: State, s': State, seg: Segment)
    requires Granted(s, s', [seg])
    ensures Active(s', seg.Key()) && RangeOf(s', seg.Key()) == seg.Range() && s'.pm == s.pm && s'.stopped == s.stopped
  {
    hide GrantedBytes;
    assert [seg][0] == seg;
  }

  function Left(total: nat, acked: set<nat>): set<nat> {
    set x: nat | x < total && x !in acked
  }

  lemma {:induction false} AllBytes(t: Trace, content: nat -> byte) returns (t': Trace)
    requires Working(t, content) && Last(t).attempts == map[] && !Last(t).sched.stopped
    ensures Working(t', content) && Continues(t, t') && Last(t').attempts == map[]
    ensures Last(t').sched.pm.g == Last(t).sched.pm.g && Left(Last(t').sched.pm.g.totalSize, Last(t').acked) == {}
    decreases |Left(Last(t).sched.pm.g.totalSize, Last(t).acked)|
  {
    hide SessionOk, PipeOk, Behaviour;
    var total := Last(t).sched.pm.g.totalSize;
    if x :| x in Left(total, Last(t).acked) {
      var t1 := OneMoreByte(t, x, content);
      SmallerSet(Left(total, Last(t1).acked), Left(total, Last(t).acked), x);
      t' := AllBytes(t1, content);
    } else {
      t' := t;
    }
  }

  lemma SmallerSet(a: set<nat>, b: set<nat>, x: nat)
    requires a <= b && x in b && x !in a
    ensures |a| < |b|
  {
    SubsetSize(a, b - {x});
  }

  /** The monitor can finish what it is doing. */
  lemma MonitorCanRest(t: Trace, content: nat -> byte) returns (t': Trace)
    requires Working(t, content) && Last(t).attempts == map[]
    ensures Working(t', content) && Continues(t, t') && Last(t').attempts == map[]
    ensures Last(t').sched.pm == Last(t).sched.pm && Last(t').acked == Last(t).acked && Last(t').monitor == Idle
  {
    hide SessionOk, PipeOk, Behaviour, Inv, Steps;
    assert AcknowledgedAll(map[]) == map[];
    var t1 := Drain(t, content);
    match Last(t1).monitor {
      case Idle => t' := t1;
      case Deciding(_) =>
        var t2 := Do(t1, Freeze, content);
        if Last(t2).monitor.Idle? {
          t' := t2;
        } else {
          t' := FrozenCanBeSaved(t2, content);
        }
      case Frozen(_) => t' := FrozenCanBeSaved(t1, content);
      case Durable(_) => t' := Do(t1, Save, content);
    }
  }

  /** The last save of a session: whatever is complete, on disk. */
  lemma TerminalSave(t: Trace, content: nat -> byte) returns (t': Trace)
    requires Working(t, content) && Last(t).attempts == map[] && Last(t).monitor == Idle
    ensures Working(t', content) && Continues(t, t') && Last(t').attempts == map[]
    ensures Last(t').sched.pm == Last(t).sched.pm && Last(t').acked == Last(t).acked
    ensures Last(t').disk == Some(TakeSnapshot(Last(t).sched)) && Last(t').monitor == Idle && Last(t').queue == []
  {
    hide SessionOk, PipeOk, Behaviour, Inv, Steps;
    assert AcknowledgedAll(map[]) == map[];
    var t1 := Do(t, Decide(Terminal, 0), content);
    var t2 := Do(t1, Freeze, content);
    t' := FrozenCanBeSaved(t2, content);
  }

  lemma CloseWriter(t: Trace, content: nat -> byte) returns (t': Trace)
    requires Working(t, content) && Last(t).queue == [] && Last(t).monitor == Idle
    ensures IsRun(t', content) && Continues(t, t') && Last(t').closed
    ensures Last(t').sched == Last(t).sched && Last(t').acked == Last(t).acked
    ensures Last(t').attempts == Last(t).attempts && Last(t').disk == Last(t).disk
  {
    hide SessionOk, PipeOk, Behaviour, Inv, AfterFlush;
    t' := Do(t, Close, content);
  }

  /** No session gets stuck: wherever a run has got to, while its writer lives and the scheduler
      is not stopped it can be continued to a state in which every byte is received and durably
      right in the file, and the checkpoint on disk marks every piece complete. */
  lemma DownloadCanFinish(pm: PieceMap, file: File, durable: File, disk: Option<Snapshot>, watermark: nat,
                          content: nat -> byte, t: Trace) returns (t': Trace)
    requires SoundStart(pm, file, durable, content)
    requires |t.states| == |t.events| + 1 && Behaviour(t.states, t.events, content)
    requires t.states[0] == Open(pm, file, durable, disk, watermark)
    requires Last(t).writer.alive && !Last(t).closed && !Last(t).sched.stopped
    ensures |t'.states| == |t'.events| + 1 && Behaviour(t'.states, t'.events, content) && Continues(t, t')
    ensures var s := Last(t');
            && s.sched.pm.g == pm.g && s.received == pm.g.totalSize
            && (forall x: nat :: x < pm.g.totalSize ==> Good(s.writer.synced, content, x))
            && (forall p: nat :: p < Count(pm.g) ==> IsComplete(s.sched.pm, p))
            && s.disk == Some(TakeSnapshot(s.sched))
  {
    hide SoundStart, SessionOk, PipeOk, Behaviour, Continues, Left;
    OpenOk(pm, file, durable, disk, watermark, content);
    OpenPipe(pm, file, durable, disk, watermark);
    PipeRun(t.states, t.events, content, |t.events|);
    RunGeometry(t.states, t.events, content, |t.events|);
    var t1 := Drain(t, content);
    var t2 := EndAll(t1, content);
    var t3 := AllBytes(t2, content);
    var t4 := MonitorCanRest(t3, content);
    var t5 := TerminalSave(t4, content);
    t' := CloseWriter(t5, content);
    ContinuesTrans(t, t1, t2);
    ContinuesTrans(t, t2, t3);
    ContinuesTrans(t, t3, t4);
    ContinuesTrans(t, t4, t5);
    ContinuesTrans(t, t5, t');
    Finished(Last(t'), content);
  }

  /** With every byte acknowledged, and no attempt left, the download is complete. */
  lemma Finished(s: SessionState, content: nat -> byte)
    requires SessionOk(s, content) && s.attempts == map[] && Left(s.sched.pm.g.totalSize, s.acked) == {} && s.closed
    ensures s.received == s.sched.pm.g.totalSize
    ensures forall x: nat :: x < s.sched.pm.g.totalSize ==> Good(s.writer.synced, content, x)
    ensures forall p: nat :: p < Count(s.sched.pm.g) ==> IsComplete(s.sched.pm, p)
  {
    hide AuditOk, FilesOk, AttemptsOk, MonitorOk, Count;
    var a, n := Audit(s.sched, s.acked), s.sched.pm.g.totalSize;
    AckedIsGood(s, content);
    ClosedIsSynced(s, content);
    AckedInside(a);
    forall x: nat | x < n ensures x in s.acked {
      assert x !in Left(n, s.acked);
    }
    assert s.acked == BytesOf(ByteRange(0, n));
    IntervalSize(ByteRange(0, n));
    CountsAcked(s, content);
    forall p: nat | p < Count(s.sched.pm.g) ensures IsComplete(s.sched.pm, p) {
      PieceBounds(s.sched.pm.g, p);
      DurableBitExact(a, p);
    }
  }

  lemma AckedInside(a: Audit)
    requires AuditOk(a)
    ensures forall x :: x in a.acked ==> x < a.s.pm.g.totalSize
  {
    hide Inv, Unacked;
  }

  // ----- winding down after a failed writer

  ghost predicate Failed(t: Trace, content: nat -> byte) {
    IsRun(t, content) && !Last(t).writer.alive && !Last(t).closed
  }

  lemma EndOneFailed(t: Trace, key: LeaseKey, content: nat -> byte) returns (t': Trace)
    requires Failed(t, content) && key in Last(t).attempts
    ensures Failed(t', content) && Continues(t, t') && Last(t').attempts == Last(t).attempts - {key}
    ensures Last(t').monitor == Last(t).monitor && Last(t').disk == Last(t).disk && Last(t).acked <= Last(t').acked
  {
    hide SessionOk, PipeOk, Behaviour, Inv, AckedBy;
    match Last(t).attempts[key].phase {
      case Confirmed => t' := Do(t, Keep(key), content);
      case Abandoned => t' := Do(t, Discard(key), content);
      case _ => t' := Do(t, FlushFailed(key), content);
    }
  }

  lemma {:induction false} EndAllFailed(t: Trace, content: nat -> byte) returns (t': Trace)
    requires Failed(t, content)
    ensures Failed(t', content) && Continues(t, t') && Last(t').attempts == map[]
    ensures Last(t').monitor == Last(t).monitor && Last(t').disk == Last(t).disk && Last(t).acked <= Last(t').acked
    decreases |Last(t).attempts|
  {
    hide SessionOk, PipeOk, Behaviour;
    if Last(t).attempts == map[] {
      t' := t;
    } else {
      var key :| key in Last(t).attempts;
      var t1 := EndOneFailed(t, key, content);
      assert Last(t1).attempts.Keys == Last(t).attempts.Keys - {key};
      t' := EndAllFailed(t1, content);
    }
  }

  lemma MonitorGivesUp(t: Trace, content: nat -> byte) returns (t': Trace)
    requires Failed(t, content)
    ensures Failed(t', content) && Continues(t, t') && Last(t').monitor == Idle
    ensures Last(t').attempts == Last(t).attempts && Last(t').disk == Last(t).disk
    ensures Last(t').acked == Last(t).acked && Last(t').received == Last(t).received
  {
    hide SessionOk, PipeOk, Behaviour, Inv;
    match Last(t).monitor {
      case Idle => t' := t;
      case Deciding(_) =>
        var t1 := Do(t, Freeze, content);
        if Last(t1).monitor.Idle? {
          t' := t1;
        } else {
          t' := Do(t1, BarrierFails, content);
        }
      case Durable(_) => t' := Do(t, SaveFails, content);
      case _ => t' := Do(t, BarrierFails, content);
    }
  }

  /** A writer can fail at any time, having written any part of its buffers. The session then
      winds down: every attempt ends, received bytes are the acknowledged ones, which all stay
      right in the file, and the checkpoint on disk stays. */
  lemma FailureCanSettle(t: Trace, kept: set<nat>, content: nat -> byte) returns (t': Trace)
    requires Working(t, content)
    ensures IsRun(t', content) && Continues(t, t') && |t'.events| > |t.events|
    ensures t'.events[|t.events|] == WriterFails(kept)
    ensures t'.states[|t.states|].writer.file == PartlyFlushed(Last(t).writer, kept)
    ensures var s, s' := Last(t), Last(t');
            && s'.attempts == map[] && s'.monitor == Idle && s'.disk == s.disk
            && s.acked <= s'.acked && s'.received == |s'.acked|
            && forall x :: x in s'.acked ==> Good(s'.writer.file, content, x)
  {
    hide SessionOk, PipeOk, Behaviour, Inv, PartlyFlushed;
    var t1 := Do(t, WriterFails(kept), content);
    var t2 := EndAllFailed(t1, content);
    t' := MonitorGivesUp(t2, content);
    assert t1.events[|t.events|] == WriterFails(kept);
    AckedIsGood(Last(t'), content);
    CountsAcked(Last(t'), content);
  }

  lemma CountsAcked(s: SessionState, content: nat -> byte)
    requires SessionOk(s, content) && s.attempts == map[]
    ensures s.received == |s.acked|
  {
    hide AuditOk, FilesOk, AttemptsOk, MonitorOk;
    assert Forwards(map[]) == map[];
  }
}
