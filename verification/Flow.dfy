/** Memory-budgeted forwarding (`src/session/flow.rs`): producers take byte permits, queue
    chunks on a bounded channel, and the writer gives permits back as it flushes. */
module Flow {
  import opened Arith
  import opened Leases
  import opened MapSums
  import opened Cache
  import opened Writer

  const U32_MAX: nat := 0xFFFF_FFFF

  /** Geometry of the budget and of the command channel. */
  datatype Budget = Budget(bytes: nat, maxChunk: nat, watermark: nat, channel: nat)

  function NewBudget(bytes: nat, channel: nat): Budget {
    Budget(bytes, Min(DivCeil(bytes, 2), U32_MAX), Max(bytes / 2, 1), channel)
  }

  /** One chunk on its way to the writer. */
  datatype Chunk = Chunk(key: LeaseKey, offset: nat, data: seq<byte>)

  /** `available`, `waiting` and `holding` are the fair semaphore: free permits, chunks queued
      for permits in arrival order, and chunks that have theirs but no channel slot yet.
      `permits` are those the writer keeps, by lease. */
  datatype FlowState = FlowState(
    available: int,
    waiting: seq<Chunk>,
    holding: seq<Chunk>,
    queue: seq<Cmd>,
    writer: WriterState,
    permits: map<LeaseKey, nat>
  )

  datatype FlowEvent =
    | Ask(chunk: Chunk)
    | Control(cmd: Cmd)
    | Grant
    | Send(i: nat)
    | Work
    | StopWaiting(i: nat)
    | StopHolding(i: nat)
    | WriterDies

  function ChunkBytes(chunks: seq<Chunk>): nat {
    if chunks == [] then 0 else |chunks[0].data| + ChunkBytes(chunks[1..])
  }

  function Carried(c: Cmd): nat {
    if c.Data? then |c.data| else 0
  }

  /** Permits carried by queued commands. */
  function QueueBytes(queue: seq<Cmd>): nat {
    if queue == [] then 0 else Carried(queue[0]) + QueueBytes(queue[1..])
  }

  function Without<T>(s: seq<T>, i: nat): seq<T>
    requires i < |s|
  {
    s[..i] + s[i + 1..]
  }

  function HeldBy(permits: map<LeaseKey, nat>, key: LeaseKey): nat {
    if key in permits then permits[key] else 0
  }

  /** The writer's permits after one command it survives: a chunk's permit is stored under its
      lease, the permits of a lease that is no longer open are dropped, and so are those of
      everything just flushed or discarded. */
  ghost function PermitsAfter(w: WriterState, permits: map<LeaseKey, nat>, c: Cmd): map<LeaseKey, nat> {
    match c
    case BeginLease(_) => permits
    case Data(key, offset, data) =>
      var stored := permits[key := HeldBy(permits, key) + |data|];
      var kept := if key in w.active then stored else stored - {key};
      var cached := if key in w.active then InsertChunk(w.cache, key, offset, data).0 else w.cache;
      if Buffered(cached) >= w.watermark then map[] else kept
    case FlushLease(key) => permits - {key}
    case DiscardLease(key) => permits - {key}
    case FlushAll(_) => map[]
  }

  /** The channel is closed: queued commands and stored permits are dropped. */
  ghost function Dead(s: FlowState): FlowState {
    s.(available := s.available + QueueBytes(s.queue) + MapSum(s.permits), queue := [],
       permits := map[], writer := s.writer.(alive := false))
  }

  ghost function Worked(s: FlowState): FlowState
    requires s.queue != []
  {
    var c := s.queue[0];
    var w := Exec(s.writer, c);
    if !w.alive then Dead(s)
    else
      var permits := PermitsAfter(s.writer, s.permits, c);
      s.(available := s.available + Carried(c) + MapSum(s.permits) - MapSum(permits),
         queue := s.queue[1..], writer := w, permits := permits)
  }

  predicate Enabled(b: Budget, s: FlowState, e: FlowEvent) {
    match e
    case Ask(c) => s.writer.alive && 1 <= |c.data| <= b.maxChunk
    case Control(cmd) => s.writer.alive && |s.queue| < b.channel && !cmd.Data?
    case Grant => s.waiting != [] && |s.waiting[0].data| <= s.available
    case Send(i) => s.writer.alive && i < |s.holding| && |s.queue| < b.channel
    case Work => s.writer.alive && s.queue != []
    case StopWaiting(i) => i < |s.waiting|
    case StopHolding(i) => i < |s.holding|
    case WriterDies => s.writer.alive
  }

  ghost function Apply(b: Budget, s: FlowState, e: FlowEvent): FlowState
    requires Enabled(b, s, e)
  {
    match e
    case Ask(c) => s.(waiting := s.waiting + [c])
    case Control(cmd) => s.(queue := s.queue + [cmd])
    case Grant =>
      var c := s.waiting[0];
      s.(available := s.available - |c.data|, waiting := s.waiting[1..], holding := s.holding + [c])
    case Send(i) =>
      var c := s.holding[i];
      s.(holding := Without(s.holding, i), queue := s.queue + [Data(c.key, c.offset, c.data)])
    case Work => Worked(s)
    case StopWaiting(i) => s.(waiting := Without(s.waiting, i))
    case StopHolding(i) => s.(available := s.available + |s.holding[i].data|, holding := Without(s.holding, i))
    case WriterDies => Dead(s)
  }

  /** Steps the session takes by itself: no new chunk, no new command, no cancellation of a
      producer whose writer is alive. */
  predicate Internal(s: FlowState, e: FlowEvent) {
    e.Grant? || e.Send? || e.Work? || (!s.writer.alive && (e.StopWaiting? || e.StopHolding?))
  }

  ghost predicate ChunksFit(b: Budget, chunks: seq<Chunk>) {
    forall i :: 0 <= i < |chunks| ==> 1 <= |chunks[i].data| <= b.maxChunk
  }

  ghost predicate QueueFits(b: Budget, queue: seq<Cmd>) {
    |queue| <= b.channel && forall i :: 0 <= i < |queue| && queue[i].Data? ==> queue[i].data != []
  }

  /** The writer keeps one permit per buffered byte and buffers less than the watermark. */
  ghost predicate WriterFits(b: Budget, w: WriterState, permits: map<LeaseKey, nat>) {
    && w.watermark == b.watermark
    && permits == Lengths(w.cache)
    && (forall key :: key in w.cache ==> key in w.active)
    && Buffered(w.cache) < b.watermark
  }

  ghost predicate FlowOk(b: Budget, s: FlowState) {
    && 0 <= s.available
    && s.available + ChunkBytes(s.holding) + QueueBytes(s.queue) + MapSum(s.permits) == b.bytes
    && ChunksFit(b, s.waiting) && ChunksFit(b, s.holding) && QueueFits(b, s.queue)
    && (if s.writer.alive then WriterFits(b, s.writer, s.permits) else s.queue == [] && s.permits == map[])
  }

  function Opening(b: Budget, file: File): FlowState {
    FlowState(b.bytes, [], [], [], WriterState(true, b.watermark, map[], map[], file, file), map[])
  }

  function Measure(s: FlowState): nat {
    3 * |s.waiting| + 2 * |s.holding| + |s.queue|
  }

  ghost predicate FlowRun(b: Budget, states: seq<FlowState>, events: seq<FlowEvent>) {
    && |states| == |events| + 1
    && forall i :: 0 <= i < |events| ==>
         Enabled(b, states[i], events[i]) && states[i + 1] == Apply(b, states[i], events[i])
  }

  ghost predicate RunsFrom(b: Budget, file: File, states: seq<FlowState>, events: seq<FlowEvent>) {
    |states| == |events| + 1 && FlowRun(b, states, events) && states[0] == Opening(b, file)
  }

  /** Once nothing is held or queued, the oldest waiting chunk can be granted. */
  ghost predicate HeadServed(b: Budget, s: FlowState) {
    s.writer.alive && s.queue == [] && s.holding == [] && s.waiting != [] ==> Enabled(b, s, Grant)
  }

  const FILL_KEY := LeaseKey(0, 0)

  function Fill(k: nat): seq<byte> {
    seq(k, _ => 0 as byte)
  }

  function FillCache(k: nat): Buffers {
    if k == 0 then map[] else map[FILL_KEY := Entry(0, Fill(k))]
  }

  function FillPermits(k: nat): map<LeaseKey, nat> {
    if k == 0 then map[] else map[FILL_KEY := k]
  }

  /** One lease with `k` bytes buffered and nothing else under way. */
  function FillState(b: Budget, k: nat): FlowState {
    var active := map[FILL_KEY := if k == 0 then None else Some(k)];
    var w := WriterState(true, b.watermark, FillCache(k), active, map[], map[]);
    FlowState(b.bytes - k, [], [], [], w, FillPermits(k))
  }

  ghost predicate InternalRun(states: seq<FlowState>, events: seq<FlowEvent>)
    requires |states| == |events| + 1
  {
    forall i :: 0 <= i < |events| ==> Internal(states[i], events[i])
  }
}

module FlowLaws {
  import opened Arith
  import opened Leases
  import opened MapSums
  import opened Cache
  import opened Writer
  import opened WriterLaws
  import opened Flow

  // ----- sums

  lemma {:induction false} ChunkBytesConcat(a: seq<Chunk>, b: seq<Chunk>)
    ensures ChunkBytes(a + b) == ChunkBytes(a) + ChunkBytes(b)
  {
    if a == [] {
      assert a + b == b;
    } else {
      assert (a + b)[1..] == a[1..] + b;
      ChunkBytesConcat(a[1..], b);
    }
  }

  lemma ChunkBytesWithout(a: seq<Chunk>, i: nat)
    requires i < |a|
    ensures ChunkBytes(a) == |a[i].data| + ChunkBytes(Without(a, i))
  {
    assert a == a[..i] + ([a[i]] + a[i + 1..]);
    ChunkBytesConcat(a[..i], [a[i]] + a[i + 1..]);
    ChunkBytesConcat([a[i]], a[i + 1..]);
    ChunkBytesConcat(a[..i], a[i + 1..]);
  }

  lemma {:induction false} QueueBytesSnoc(q: seq<Cmd>, c: Cmd)
    ensures QueueBytes(q + [c]) == QueueBytes(q) + Carried(c)
  {
    if q == [] {
      assert q + [c] == [c];
    } else {
      assert (q + [c])[1..] == q[1..] + [c];
      QueueBytesSnoc(q[1..], c);
    }
  }

  // ----- the writer keeps its permits in step with its cache

  lemma LengthsInsert(m: Buffers, key: LeaseKey, offset: nat, data: seq<byte>)
    requires data != [] && InsertChunk(m, key, offset, data).1.Ok?
    ensures Lengths(InsertChunk(m, key, offset, data).0) == Lengths(m)[key := HeldBy(Lengths(m), key) + |data|]
  {
  }

  lemma LengthsRemove(m: Buffers, key: LeaseKey)
    ensures Lengths(m - {key}) == Lengths(m) - {key}
  {
  }

  lemma MapSumDrop(m: map<LeaseKey, nat>, key: LeaseKey)
    ensures MapSum(m - {key}) <= MapSum(m)
  {
    if key in m {
      MapSumRemove(m, key);
    } else {
      assert m - {key} == m;
    }
  }

  lemma WriterStepFits(b: Budget, w: WriterState, permits: map<LeaseKey, nat>, c: Cmd)
    requires w.alive && WriterFits(b, w, permits) && b.watermark >= 1 && Exec(w, c).alive
    requires c.Data? ==> c.data != []
    ensures WriterFits(b, Exec(w, c), PermitsAfter(w, permits, c))
    ensures MapSum(PermitsAfter(w, permits, c)) <= MapSum(permits) + Carried(c)
  {
    hide AfterFlush, InsertChunk;
    AfterFlushSynced(w);
    assert Lengths(map[]) == map[];
    match c {
      case BeginLease(_) =>
      case Data(key, offset, data) => DataStepFits(b, w, permits, key, offset, data);
      case FlushLease(key) => LengthsRemove(w.cache, key); MapSumDrop(permits, key);
      case DiscardLease(key) => LengthsRemove(w.cache, key); MapSumDrop(permits, key);
      case FlushAll(_) => FlushFits(w);
    }
  }

  lemma FlushFits(w: WriterState)
    ensures AfterFlush(w).cache == map[] && AfterFlush(w).watermark == w.watermark
    ensures Buffered(map[]) == 0 && Lengths(map[]) == map[] && MapSum<LeaseKey>(map[]) == 0
  {
    assert Lengths(map[]) == map[];
  }

  lemma DataStepFits(b: Budget, w: WriterState, permits: map<LeaseKey, nat>, key: LeaseKey, offset: nat,
                     data: seq<byte>)
    requires w.alive && WriterFits(b, w, permits) && b.watermark >= 1
    requires ExecData(w, key, offset, data).alive && data != []
    ensures WriterFits(b, ExecData(w, key, offset, data), PermitsAfter(w, permits, Data(key, offset, data)))
    ensures MapSum(PermitsAfter(w, permits, Data(key, offset, data))) <= MapSum(permits) + |data|
  {
    hide AfterFlush, InsertChunk, Lengths, Buffered, MapSum;
    if key in w.active {
      OpenDataFits(b, w, permits, key, offset, data);
    } else {
      assert w.cache == w.cache - {key};
      LengthsRemove(w.cache, key);
      assert permits[key := HeldBy(permits, key) + |data|] - {key} == permits;
    }
  }

  lemma OpenDataFits(b: Budget, w: WriterState, permits: map<LeaseKey, nat>, key: LeaseKey, offset: nat,
                     data: seq<byte>)
    requires w.alive && WriterFits(b, w, permits) && b.watermark >= 1
    requires ExecData(w, key, offset, data).alive && data != []
    requires key in w.active
    ensures WriterFits(b, ExecData(w, key, offset, data), PermitsAfter(w, permits, Data(key, offset, data)))
    ensures MapSum(PermitsAfter(w, permits, Data(key, offset, data))) <= MapSum(permits) + |data|
  {
    hide AfterFlush, InsertChunk, Lengths, Buffered, MapSum;
    MapSumInsert(permits, key, HeldBy(permits, key) + |data|);
    LengthsInsert(w.cache, key, offset, data);
    InsertKeys(w.cache, key, offset, data);
    var w1 := w.(cache := InsertChunk(w.cache, key, offset, data).0, active := w.active[key := Some(offset + |data|)]);
    FlushFits(w1);
    AfterFlushSynced(w1);
  }

  lemma InsertKeys(m: Buffers, key: LeaseKey, offset: nat, data: seq<byte>)
    ensures forall k :: k in InsertChunk(m, key, offset, data).0 ==> k in m || k == key
  {
  }

  // ----- every step

  lemma FitsAfterRemoval(b: Budget, chunks: seq<Chunk>, i: nat)
    requires ChunksFit(b, chunks) && i < |chunks|
    ensures ChunksFit(b, Without(chunks, i))
  {
  }

  lemma DeadOk(b: Budget, s: FlowState)
    requires FlowOk(b, s)
    ensures FlowOk(b, Dead(s))
  {
  }

  lemma WorkedOk(b: Budget, s: FlowState)
    requires FlowOk(b, s) && s.writer.alive && s.queue != [] && b.watermark >= 1
    ensures FlowOk(b, Worked(s))
  {
    hide Exec, WriterFits, PermitsAfter;
    if Exec(s.writer, s.queue[0]).alive {
      WriterStepFits(b, s.writer, s.permits, s.queue[0]);
    } else {
      DeadOk(b, s);
    }
  }

  lemma SendOk(b: Budget, s: FlowState, i: nat)
    requires FlowOk(b, s) && Enabled(b, s, Send(i))
    ensures FlowOk(b, Apply(b, s, Send(i)))
  {
    hide WriterFits, MapSum;
    var c := s.holding[i];
    ChunkBytesWithout(s.holding, i);
    FitsAfterRemoval(b, s.holding, i);
    QueueBytesSnoc(s.queue, Data(c.key, c.offset, c.data));
  }

  lemma GrantOk(b: Budget, s: FlowState)
    requires FlowOk(b, s) && Enabled(b, s, Grant)
    ensures FlowOk(b, Apply(b, s, Grant))
  {
    hide WriterFits, MapSum, QueueFits;
    ChunkBytesConcat(s.holding, [s.waiting[0]]);
  }

  lemma StopOk(b: Budget, s: FlowState, i: nat)
    requires FlowOk(b, s)
    ensures i < |s.waiting| ==> FlowOk(b, Apply(b, s, StopWaiting(i)))
    ensures i < |s.holding| ==> FlowOk(b, Apply(b, s, StopHolding(i)))
  {
    hide WriterFits, MapSum, QueueFits, Without;
    if i < |s.waiting| {
      FitsAfterRemoval(b, s.waiting, i);
    }
    if i < |s.holding| {
      ChunkBytesWithout(s.holding, i);
      FitsAfterRemoval(b, s.holding, i);
    }
  }

  lemma AskOk(b: Budget, s: FlowState, e: FlowEvent)
    requires FlowOk(b, s) && Enabled(b, s, e) && (e.Ask? || e.Control?)
    ensures FlowOk(b, Apply(b, s, e))
  {
    hide WriterFits, MapSum;
    if e.Control? {
      QueueBytesSnoc(s.queue, e.cmd);
    }
  }

  /** Permits are conserved: free ones, those held by producers, those carried by queued
      commands and those kept for buffered bytes add up to the budget after every step. */
  lemma FlowStep(b: Budget, s: FlowState, e: FlowEvent)
    requires FlowOk(b, s) && Enabled(b, s, e) && b.watermark >= 1
    ensures FlowOk(b, Apply(b, s, e))
  {
    hide FlowOk, Worked, Dead, MapSum;
    match e {
      case Ask(_) => AskOk(b, s, e);
      case Control(_) => AskOk(b, s, e);
      case Grant => GrantOk(b, s);
      case Send(i) => SendOk(b, s, i);
      case Work => WorkedOk(b, s);
      case StopWaiting(i) => StopOk(b, s, i);
      case StopHolding(i) => StopOk(b, s, i);
      case WriterDies => DeadOk(b, s);
    }
  }

  lemma OpeningOk(b: Budget, file: File)
    requires b.watermark >= 1
    ensures FlowOk(b, Opening(b, file))
  {
    FlushFits(Opening(b, file).writer);
  }

  // ----- cancellation

  /** A producer can stop at any time, and so can the writer; every permit comes back except
      those of chunks still held. */
  lemma PermitsComeBack(b: Budget, s: FlowState)
    requires FlowOk(b, s)
    ensures s.writer.alive ==>
              && Enabled(b, s, WriterDies)
              && var d := Apply(b, s, WriterDies);
                 && !d.writer.alive && d.holding == s.holding && d.waiting == s.waiting
                 && d.available + ChunkBytes(d.holding) == b.bytes
    ensures forall i: nat :: i < |s.holding| ==>
              && Enabled(b, s, StopHolding(i))
              && var d := Apply(b, s, StopHolding(i));
                 d.holding == Without(s.holding, i) && d.available == s.available + |s.holding[i].data|
    ensures forall i: nat :: i < |s.waiting| ==>
              && Enabled(b, s, StopWaiting(i))
              && var d := Apply(b, s, StopWaiting(i));
                 d.waiting == Without(s.waiting, i) && d.available == s.available
  {
    hide WriterFits, ChunkBytes, QueueBytes, Without;
  }

  // ----- no deadlock

  /** The budget's geometry leaves room for one largest chunk below the watermark: the two share
      the whole budget in halves, except that each is at least one byte and that a chunk fits
      in 32 bits. */
  lemma GeometryFits(bytes: nat, channel: nat)
    requires bytes >= 1
    ensures var b := NewBudget(bytes, channel);
            && b.bytes == bytes && b.channel == channel
            && 1 <= b.maxChunk && 1 <= b.watermark && b.maxChunk + b.watermark <= bytes + 1
            && (2 <= bytes <= 2 * U32_MAX ==>
                  b.maxChunk + b.watermark == bytes && b.watermark <= b.maxChunk <= b.watermark + 1)
            && (bytes > 2 * U32_MAX ==>
                  b.maxChunk == U32_MAX && 2 * b.watermark <= bytes <= 2 * b.watermark + 1)
  {
  }

  ghost predicate Roomy(b: Budget) {
    b.channel >= 1 && b.watermark >= 1 && b.maxChunk + b.watermark <= b.bytes + 1
  }

  /** While any chunk is waiting, holding or queued, some internal step is enabled. */
  lemma NoDeadlock(b: Budget, s: FlowState) returns (e: FlowEvent)
    requires FlowOk(b, s) && Roomy(b)
    requires s.waiting != [] || s.holding != [] || (s.writer.alive && s.queue != [])
    ensures Internal(s, e) && Enabled(b, s, e)
  {
    if !s.writer.alive {
      e := if s.waiting != [] then StopWaiting(0) else StopHolding(0);
    } else if s.queue != [] {
      e := Work;
    } else if s.holding != [] {
      e := Send(0);
    } else {
      e := Grant;
      assert MapSum(s.permits) == Buffered(s.writer.cache);
    }
  }

  // ----- the geometry is tight

  lemma SumOfOne(key: LeaseKey, n: nat)
    ensures MapSum(map[key := n]) == n && MapSum<LeaseKey>(map[]) == 0
  {
    MapSumRemove(map[key := n], key);
    assert map[key := n] - {key} == map[];
  }

  lemma FillSums(k: nat)
    ensures MapSum(FillPermits(k)) == k && Buffered(FillCache(k)) == k
  {
    SumOfOne(FILL_KEY, k);
    assert Lengths(FillCache(k)) == FillPermits(k);
  }

  lemma FlowDo(b: Budget, file: File, states: seq<FlowState>, events: seq<FlowEvent>, e: FlowEvent)
    returns (states': seq<FlowState>, events': seq<FlowEvent>)
    requires RunsFrom(b, file, states, events) && Enabled(b, states[|events|], e)
    ensures RunsFrom(b, file, states', events') && states'[|events'|] == Apply(b, states[|events|], e)
  {
    hide Apply, Enabled;
    states', events' := states + [Apply(b, states[|events|], e)], events + [e];
    forall i | 0 <= i < |events'|
      ensures Enabled(b, states'[i], events'[i]) && states'[i + 1] == Apply(b, states'[i], events'[i])
    {
      if i < |events| {
        assert states'[i] == states[i] && states'[i + 1] == states[i + 1] && events'[i] == events[i];
      } else {
        assert states'[i] == states[i] && events'[i] == e;
      }
    }
  }

  /** One more byte on its way from a producer into the cache. */
  lemma FillWork(b: Budget, k: nat, s: FlowState)
    requires k + 1 < b.watermark <= b.bytes
    requires s == FillState(b, k).(available := b.bytes - k - 1, queue := [Data(FILL_KEY, k, [0])])
    ensures Worked(s) == FillState(b, k + 1)
  {
    hide Buffered, MapSum;
    FillSums(k);
    FillSums(k + 1);
    FillInsert(k);
    assert s.queue[1..] == [];
  }

  lemma FillInsert(k: nat)
    ensures InsertChunk(FillCache(k), FILL_KEY, k, [0]) == (FillCache(k + 1), Ok)
    ensures FillPermits(k)[FILL_KEY := HeldBy(FillPermits(k), FILL_KEY) + 1] == FillPermits(k + 1)
  {
    var data: seq<byte> := [0];
    assert Fill(k) + data == Fill(k + 1);
    var before := if k == 0 then Entry(k, []) else FillCache(k)[FILL_KEY];
    assert before == Entry(0, Fill(k)) && before.End() == k;
    assert InsertChunk(FillCache(k), FILL_KEY, k, data).0 == FillCache(k + 1);
  }

  lemma FillRound(b: Budget, states: seq<FlowState>, events: seq<FlowEvent>, k: nat)
    returns (states': seq<FlowState>, events': seq<FlowEvent>)
    requires b.channel >= 1 && b.maxChunk >= 1 && k + 1 < b.watermark <= b.bytes
    requires RunsFrom(b, map[], states, events) && states[|events|] == FillState(b, k)
    ensures RunsFrom(b, map[], states', events') && states'[|events'|] == FillState(b, k + 1)
  {
    hide FlowRun, Worked, FillPermits, FillCache;
    var c := Chunk(FILL_KEY, k, [0]);
    states', events' := FlowDo(b, map[], states, events, Ask(c));
    states', events' := FlowDo(b, map[], states', events', Grant);
    assert states'[|events'|] == FillState(b, k).(available := b.bytes - k - 1, holding := [c]);
    states', events' := FlowDo(b, map[], states', events', Send(0));
    assert Without([c], 0) == [];
    FillWork(b, k, states'[|events'|]);
    states', events' := FlowDo(b, map[], states', events', Work);
  }

  lemma FillBegin(b: Budget) returns (states: seq<FlowState>, events: seq<FlowEvent>)
    requires b.channel >= 1
    ensures RunsFrom(b, map[], states, events) && states[|events|] == FillState(b, 0)
  {
    hide MapSum;
    states, events := [Opening(b, map[])], [];
    states, events := FlowDo(b, map[], states, events, Control(BeginLease(FILL_KEY)));
    states, events := FlowDo(b, map[], states, events, Work);
  }

  lemma {:induction false} FillRun(b: Budget, k: nat) returns (states: seq<FlowState>, events: seq<FlowEvent>)
    requires b.channel >= 1 && b.maxChunk >= 1 && k < b.watermark <= b.bytes
    ensures RunsFrom(b, map[], states, events) && states[|events|] == FillState(b, k)
  {
    hide FlowRun, FillState;
    if k == 0 {
      states, events := FillBegin(b);
    } else {
      states, events := FillRun(b, k - 1);
      states, events := FillRound(b, states, events, k - 1);
    }
  }

  /** A run from the opening state into a deadlock: with too little room, bytes are buffered up
      to just below the watermark, and then a largest chunk waits for ever. */
  lemma StuckRun(b: Budget) returns (states: seq<FlowState>, events: seq<FlowEvent>)
    requires 1 <= b.watermark <= b.bytes && 1 <= b.maxChunk && b.channel >= 1
    requires b.maxChunk + b.watermark > b.bytes + 1
    ensures RunsFrom(b, map[], states, events) && !HeadServed(b, states[|events|])
  {
    hide FlowRun, FillPermits, FillCache;
    states, events := FillRun(b, b.watermark - 1);
    states, events := FlowDo(b, map[], states, events, Ask(Chunk(FILL_KEY, b.watermark - 1, Fill(b.maxChunk))));
  }

  /** The geometry is as tight as it can be: in every run from the opening state the oldest
      waiting chunk can be granted once nothing is held or queued, if and only if a largest
      chunk fits beside a cache just below the watermark. */
  lemma RoomIsExact(b: Budget)
    requires 1 <= b.watermark <= b.bytes && 1 <= b.maxChunk && b.channel >= 1
    ensures b.maxChunk + b.watermark <= b.bytes + 1
       <==> forall file, states, events :: RunsFrom(b, file, states, events) ==> HeadServed(b, states[|events|])
  {
    hide FlowRun, HeadServed;
    if b.maxChunk + b.watermark <= b.bytes + 1 {
      forall file, states, events | RunsFrom(b, file, states, events) ensures HeadServed(b, states[|events|]) {
        OpeningOk(b, file);
        RunOk(b, states, events, |events|);
        RoomServes(b, states[|events|]);
      }
    } else {
      var states, events := StuckRun(b);
    }
  }

  lemma RoomServes(b: Budget, s: FlowState)
    requires FlowOk(b, s) && b.maxChunk + b.watermark <= b.bytes + 1
    ensures HeadServed(b, s)
  {
    if s.writer.alive && s.queue == [] && s.holding == [] && s.waiting != [] {
      assert MapSum(s.permits) == Buffered(s.writer.cache);
    }
  }

  // ----- progress

  lemma InternalShrinks(b: Budget, s: FlowState, e: FlowEvent)
    requires Enabled(b, s, e) && Internal(s, e)
    ensures Measure(Apply(b, s, e)) < Measure(s)
  {
    hide Exec, PermitsAfter, MapSum, QueueBytes;
  }

  lemma {:induction false} RunOk(b: Budget, states: seq<FlowState>, events: seq<FlowEvent>, k: nat)
    requires FlowRun(b, states, events) && FlowOk(b, states[0]) && b.watermark >= 1 && k < |states|
    ensures FlowOk(b, states[k])
  {
    hide FlowOk, Apply, Enabled;
    if k > 0 {
      RunOk(b, states, events, k - 1);
      FlowStep(b, states[k - 1], events[k - 1]);
      assert states[k - 1 + 1] == Apply(b, states[k - 1], events[k - 1]);
    }
  }

  lemma {:induction false} RunShrinks(b: Budget, states: seq<FlowState>, events: seq<FlowEvent>, k: nat)
    requires FlowRun(b, states, events) && InternalRun(states, events) && k < |states|
    ensures Measure(states[k]) + k <= Measure(states[0])
  {
    hide Apply, Enabled, Measure, Internal;
    if k > 0 {
      RunShrinks(b, states, events, k - 1);
      InternalShrinks(b, states[k - 1], events[k - 1]);
      assert states[k - 1 + 1] == Apply(b, states[k - 1], events[k - 1]);
    }
  }

  /** For every budget of at least one byte and every mix of producers: from any sound state,
      every sequence of internal steps is finite, and one that cannot be extended has let
      every waiting chunk through to the writer (or, once the writer is gone, released it). */
  lemma EveryProducerFinishes(bytes: nat, channel: nat, states: seq<FlowState>, events: seq<FlowEvent>)
    requires bytes >= 1 && channel >= 1
    requires var b := NewBudget(bytes, channel); FlowRun(b, states, events) && FlowOk(b, states[0])
    requires InternalRun(states, events)
    ensures |events| <= Measure(states[0])
    ensures var b, last := NewBudget(bytes, channel), states[|events|];
            && FlowOk(b, last)
            && ((forall e :: Internal(last, e) ==> !Enabled(b, last, e)) ==>
                  && last.waiting == [] && last.holding == [] && last.queue == []
                  && last.available + MapSum(last.permits) == bytes)
  {
    hide Apply, Enabled, Measure, Internal;
    var b, last := NewBudget(bytes, channel), states[|events|];
    GeometryFits(bytes, channel);
    RunOk(b, states, events, |events|);
    RunShrinks(b, states, events, |events|);
    if last.waiting != [] || last.holding != [] || last.queue != [] {
      var e := NoDeadlock(b, last);
    }
  }

  /** In every run from the opening state, queued, held and buffered bytes together never
      exceed the budget, and buffered bytes stay below the watermark between commands. */
  lemma MemoryIsBounded(bytes: nat, channel: nat, file: File, states: seq<FlowState>, events: seq<FlowEvent>, k: nat)
    requires bytes >= 1 && k < |states|
    requires var b := NewBudget(bytes, channel); FlowRun(b, states, events) && states[0] == Opening(b, file)
    ensures ChunkBytes(states[k].holding) + QueueBytes(states[k].queue) + MapSum(states[k].permits) <= bytes
    ensures states[k].writer.alive ==>
              MapSum(states[k].permits) == Buffered(states[k].writer.cache) < NewBudget(bytes, channel).watermark
  {
    hide Apply, Enabled;
    var b := NewBudget(bytes, channel);
    GeometryFits(bytes, channel);
    OpeningOk(b, file);
    RunOk(b, states, events, k);
  }
}
