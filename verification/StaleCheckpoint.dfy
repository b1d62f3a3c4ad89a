/** A chain of lives in which the promise of the checkpoint breaks: a checkpoint is saved, a
    restart creates the file anew and leaves the checkpoint, and the next life resumes from it. */
module StaleCheckpoint {
  import opened Arith
  import opened Ranges
  import opened PieceMaps
  import opened Leases
  import opened SchedulerModel
  import opened SchedulerLaws
  import opened Cache
  import opened Writer
  import opened Session
  import opened Resume
  import opened SessionRuns
  import opened SessionTheorems
  import opened Downloads
  import opened Pipeline
  import opened PipelineLaws
  import opened Traces

  // ----- two pieces of one byte each, of an object without zeros

  const G: Geometry := Shape(2, 1)
  const FRESH := PieceMap(G, [false, false], 0, 0, 0, None)
  const KEY := LeaseKey(0, 1)

  function Ones(x: nat): byte {
    1
  }

  lemma FreshIsValid()
    ensures Count(G) == 2 && PieceMaps.Valid(FRESH)
  {
    assert SumTo(DoneCounts([false, false]), 2) == 0 by { SumToZero(DoneCounts([false, false]), 2); }
    assert SumTo(DoneBytes(G, [false, false]), 2) == 0 by { SumToZero(DoneBytes(G, [false, false]), 2); }
  }

  function Leased(): State {
    State(FRESH, map[0 := PieceState([], false, map[1 := ByteRange(0, 1)], 1)], [false, true], 1, 1, 0, 2, 0, false)
  }

  lemma RemoveWhole(r: ByteRange)
    ensures Remove([r], r) == Some([])
  {
    var rs := [r];
    assert rs[0] == r && rs[1..] == [] && Cut(r, r) == [];
    assert Remove(rs, r) == Some(Cut(rs[0], r) + rs[1..]);
  }

  lemma LeaseFirstPiece()
    ensures Inv(Init(FRESH)) && Step(Init(FRESH), Op.Issue(0, ByteRange(0, 1), 0)) == Leased()
  {
    FreshIsValid();
    InitAudit(FRESH);
    var s := Init(FRESH);
    assert s.available == [true, true];
    assert PieceAt(s, 0) == NewPiece(ByteRange(0, 1));
    assert NewPiece(ByteRange(0, 1)).missing == [ByteRange(0, 1)];
    RemoveWhole(ByteRange(0, 1));
    assert s.available[0 := false] == [false, true];
  }

  lemma CompleteFirstPiece()
    ensures |FRESH.completed| == Count(G) && FRESH.nextCandidate <= Count(G)
    ensures CompleteLease(Leased(), KEY).0.pm.completed == [true, false]
  {
    FreshIsValid();
    var q := Leased().pieces[0];
    assert CompleteIn(q, 1).leases == map[];
  }

  // ----- first life: one piece downloaded and saved

  ghost predicate QuietRun(t: Trace, first: SessionState) {
    && IsRun(t, Ones) && t.states[0] == first
    && var s := Last(t); s.writer.alive && !s.closed && s.disk.None?
  }

  lemma Forwards(t: Trace, first: SessionState) returns (t': Trace)
    requires QuietRun(t, first) && Last(t) == first && first.sched == Init(FRESH)
    requires first.queue == [] && first.attempts == map[] && first.monitor == Idle
    ensures QuietRun(t', first)
    ensures var s := Last(t');
            && s.sched == Leased() && s.attempts == map[KEY := Attempt(0, 1, 1, Flushing(2))] && s.monitor == Idle
            && |s.queue| == 3
  {
    hide SessionOk, PipeOk, Behaviour, Inv, Step, Init, Exec;
    LeaseFirstPiece();
    var t1 := Do(t, Schedule(Op.Issue(0, ByteRange(0, 1), 0)), Ones);
    var t2 := Do(t1, Begin(KEY), Ones);
    var t3 := Do(t2, Forward(KEY, 1), Ones);
    t' := Do(t3, Flush(KEY), Ones);
  }

  /** The writer works off one command. */
  lemma WorksOff(t: Trace, first: SessionState, a: Attempt) returns (t': Trace)
    requires QuietRun(t, first) && Last(t).queue != []
    ensures QuietRun(t', first)
    ensures var s, s' := Last(t), Last(t');
            && s'.sched == s.sched && s'.queue == s.queue[1..] && s'.monitor == AdvanceMonitor(s.monitor)
            && (s.attempts == map[KEY := a] ==> s'.attempts == map[KEY := Advance(a)])
  {
    hide SessionOk, PipeOk, Behaviour, Inv, Exec;
    t' := Do(t, WriterStep, Ones);
  }

  lemma Finishes(t: Trace, first: SessionState) returns (t': Trace)
    requires QuietRun(t, first)
    requires var s := Last(t);
             && s.sched == Leased() && s.attempts == map[KEY := Attempt(0, 1, 1, Flushing(2))] && s.monitor == Idle
             && |s.queue| == 3
    ensures QuietRun(t', first)
    ensures var s := Last(t'); s.sched.pm.completed == [true, false] && s.queue == [] && s.monitor == Idle
  {
    hide SessionOk, PipeOk, Behaviour;
    var t1 := WorksOff(t, first, Attempt(0, 1, 1, Flushing(2)));
    var t2 := WorksOff(t1, first, Attempt(0, 1, 1, Flushing(1)));
    var t3 := WorksOff(t2, first, Attempt(0, 1, 1, Flushing(0)));
    t' := Settles(t3, first);
  }

  lemma Settles(t: Trace, first: SessionState) returns (t': Trace)
    requires QuietRun(t, first) && Last(t).sched == Leased()
    requires Last(t).attempts == map[KEY := Attempt(0, 1, 1, Confirmed)]
    ensures QuietRun(t', first) && Last(t').sched.pm.completed == [true, false]
    ensures Last(t').queue == Last(t).queue && Last(t').monitor == Last(t).monitor
  {
    hide SessionOk, PipeOk, Behaviour, Inv, CompleteLease, AckedBy;
    CompleteFirstPiece();
    t' := Do(t, Finish(KEY), Ones);
  }

  lemma Freezes(t: Trace, first: SessionState) returns (t': Trace)
    requires QuietRun(t, first) && Last(t).queue == [] && Last(t).monitor == Idle
    ensures QuietRun(t', first) && Last(t').queue == [] && Last(t').sched.pm == Last(t).sched.pm
    ensures Last(t').monitor == Frozen(TakeSnapshot(Last(t).sched))
  {
    hide SessionOk, PipeOk, Behaviour, Inv;
    var t1 := Do(t, Decide(Terminal, 0), Ones);
    t' := Do(t1, Freeze, Ones);
  }

  lemma Saves(t: Trace, first: SessionState) returns (t': Trace)
    requires QuietRun(t, first) && Last(t).queue == [] && Last(t).monitor.Frozen?
    ensures IsRun(t', Ones) && t'.states[0] == first && Last(t').sched == Last(t).sched
    ensures Last(t').disk == Some(Last(t).monitor.snap)
  {
    hide SessionOk, PipeOk, Behaviour, Inv;
    var t1 := Do(t, Barrier, Ones);
    var t2 := WorksOff(t1, first, Attempt(0, 0, 0, Streaming));
    t' := Do(t2, Save, Ones);
  }

  lemma FirstLife(watermark: nat) returns (l: Life)
    ensures Lived(l, Ones) && FromScratch(l) && l.disk.None? && l.pm == FRESH && |l.states| == |l.events| + 1
    ensures var s := l.states[|l.events|];
            && SessionOk(s, Ones) && s.sched.pm.g == G && s.sched.pm.completed == [true, false]
            && s.disk == Some(TakeSnapshot(s.sched))
  {
    hide SessionOk, PipeOk, Behaviour;
    FreshIsValid();
    var first := Open(FRESH, map[], map[], None, watermark);
    l := Life(FRESH, map[], map[], None, watermark, [first], []);
    ScratchIsSound(l, Ones);
    OpenOk(FRESH, map[], map[], None, watermark, Ones);
    OpenPipe(FRESH, map[], map[], None, watermark);
    StartRun(first);
    var t := Forwards(Trace([first], []), first);
    t := Finishes(t, first);
    t := Freezes(t, first);
    t := Saves(t, first);
    SavedGeometry(t, first);
    l := l.(states := t.states, events := t.events);
  }

  lemma StartRun(first: SessionState)
    ensures Behaviour([first], [], Ones)
  {
  }

  lemma SavedGeometry(t: Trace, first: SessionState)
    requires IsRun(t, Ones) && t.states[0] == first && first.sched.pm.g == G
    ensures Last(t).sched.pm.g == G
  {
    hide SessionOk, PipeOk;
    RunGeometry(t.states, t.events, Ones, |t.events|);
  }

  // ----- second life: a restart over the checkpoint; third life: a resume from it

  const ZEROS: File := map[0 := 0, 1 := 0]

  lemma CrashAfterSave(s: SessionState) returns (r: Remains)
    requires SessionOk(s, Ones) && s.sched.pm.g == G
    ensures LeftBehind(s, r, 2, true) && r.length == 2
  {
    hide AuditOk, AttemptsOk, MonitorOk, CountOk, QueueOk, BuffersOk;
    r := Remains(s.writer.synced, s.writer.synced, 2);
  }

  /** The failing chain. A life downloads one of two pieces, saves its checkpoint and crashes. A
      restart keeps the checkpoint, creates the preallocated file anew and crashes before its
      first save. The checkpoint passes local validation against the new file, and the life that
      resumes from it takes the first piece for complete although its byte is wrong. */
  lemma CheckpointOutlivesFile(watermark: nat) returns (lives: seq<Life>, remains: seq<Remains>)
    ensures Lives(lives, remains, Ones, 2, true) && |lives| == 3
    ensures lives[1].disk.Some? && FromScratch(lives[1]) && !OpensClean(lives[1])
    ensures Acceptable(ControlOf(lives[1].disk.value), remains[1].length, true, 2)
    ensures !FromScratch(lives[2]) && |lives[2].states| == 1
    ensures IsComplete(lives[2].pm, 0) && 0 in lives[2].states[0].acked && !Good(lives[2].file, Ones, 0)
  {
    hide SessionOk, PipeOk, Behaviour, Acceptable;
    FreshIsValid();
    var l0 := FirstLife(watermark);
    var s0 := l0.states[|l0.events|];
    var pm, snap := s0.sched.pm, TakeSnapshot(s0.sched);
    SavedMap(s0);
    var r0 := CrashAfterSave(s0);
    var s1 := Open(FRESH, ZEROS, map[], Some(snap), watermark);
    var l1 := Life(FRESH, ZEROS, map[], Some(snap), watermark, [s1], []);
    StartRun(s1);
    var r1 := Remains(ZEROS, map[], 2);
    var s2 := Open(pm, ZEROS, map[], Some(snap), watermark);
    var l2 := Life(pm, ZEROS, map[], Some(snap), watermark, [s2], []);
    StartRun(s2);
    lives, remains := [l0, l1, l2], [r0, r1];
    SnapshotVerdict(pm, 2, 2, true, 2);
    ChainFollows(l0, r0, l1, r1, l2, snap);
    assert IsSet(snap.bits, PieceOf(G, 0));
    assert IsComplete(pm, 0) && PieceOf(G, 0) == 0;
  }

  lemma SavedMap(s: SessionState)
    requires SessionOk(s, Ones) && s.sched.pm.completed == [true, false] && s.sched.pm.g == G
    ensures PieceMaps.Valid(s.sched.pm) && s.sched.pm.completedPieces == 1 && Count(G) == 2
    ensures s.sched.pm.completed == Resized([true, false], 2)
  {
    hide FilesOk, AttemptsOk, MonitorOk, CountOk, PiecesOk, IndexesOk, Unacked;
    FreshIsValid();
    var f := DoneCounts([true, false]);
    assert SumTo(f, 2) == SumTo(f, 1) + f(1) && SumTo(f, 1) == SumTo(f, 0) + f(0);
  }

  lemma ChainFollows(l0: Life, r0: Remains, l1: Life, r1: Remains, l2: Life, snap: Snapshot)
    requires |l0.states| == |l0.events| + 1 && |l1.states| == |l1.events| + 1
    requires var s0 := l0.states[|l0.events|]; LeftBehind(s0, r0, 2, true) && Restarts(s0, l1)
    requires var s1 := l1.states[|l1.events|]; LeftBehind(s1, r1, 2, true) && Resumes(s1, r1, l2)
    ensures Follows(l0, r0, l1, 2, true) && Follows(l1, r1, l2, 2, true)
  {
    hide LeftBehind, Restarts, Resumes;
  }
}
