/** The writer task of `src/storage/writer.rs` on the multi-connection path: a FIFO
    consumer that buffers chunks per lease and writes them to the file. */
module Writer {
  import opened Arith
  import opened Ranges
  import opened Leases
  import opened Cache

  type File = map<nat, byte>

  datatype Cmd =
    | BeginLease(key: LeaseKey)
    | Data(key: LeaseKey, offset: nat, data: seq<byte>)
    | FlushLease(key: LeaseKey)
    | DiscardLease(key: LeaseKey)
    | FlushAll(sync: bool)

  datatype WriterState = WriterState(
    alive: bool,
    watermark: nat,
    cache: Buffers,
    active: map<LeaseKey, Option<nat>>,
    file: File,
    synced: File
  )

  predicate InBlock(b: Block, x: nat) {
    b.offset <= x < b.End()
  }

  function SpanOf(b: Block): set<nat> {
    set x: nat | x < b.End() && InBlock(b, x)
  }

  predicate BufferedAt(m: Buffers, key: LeaseKey, x: nat) {
    key in m && InBlock(m[key], x)
  }

  function WriteBlock(file: File, b: Block): File {
    file + map x | x in SpanOf(b) :: b.data[x - b.offset]
  }

  ghost predicate AnyBuffered(m: Buffers, x: nat) {
    exists key :: BufferedAt(m, key, x)
  }

  ghost function BufferedByte(m: Buffers, x: nat): byte
    requires AnyBuffered(m, x)
  {
    var key :| BufferedAt(m, key, x);
    m[key].data[x - m[key].offset]
  }

  ghost function BufferedBytes(m: Buffers): (r: set<nat>)
    ensures forall x: nat :: x in r <==> AnyBuffered(m, x)
  {
    var r := set key, x | key in m && x in SpanOf(m[key]) :: x;
    assert forall key, x: nat :: BufferedAt(m, key, x) ==> x in SpanOf(m[key]);
    assert forall x :: x in r ==> exists key :: key in m && x in SpanOf(m[key]) && BufferedAt(m, key, x);
    r
  }

  /** The file after all buffers are written. */
  ghost function Flushed(file: File, m: Buffers): File {
    map x | x in file.Keys + BufferedBytes(m) :: if AnyBuffered(m, x) then BufferedByte(m, x) else file[x]
  }

  ghost function AfterFlush(w: WriterState): WriterState {
    w.(file := Flushed(w.file, w.cache), cache := map[])
  }

  /** The blocks of a drain written one after the other. */
  function WriteAll(file: File, blocks: seq<Block>): File {
    if blocks == [] then file
    else WriteBlock(WriteAll(file, blocks[..|blocks| - 1]), blocks[|blocks| - 1])
  }

  /** One command. A gap or overlap within a lease ends the writer. */
  ghost function Exec(w: WriterState, c: Cmd): WriterState {
    if !w.alive then w
    else
      match c
      case BeginLease(key) => w.(active := w.active[key := None])
      case Data(key, offset, data) => ExecData(w, key, offset, data)
      case FlushLease(key) =>
        w.(file := if key in w.cache then WriteBlock(w.file, w.cache[key]) else w.file,
           cache := w.cache - {key}, active := w.active - {key})
      case DiscardLease(key) => w.(cache := w.cache - {key}, active := w.active - {key})
      case FlushAll(sync) =>
        var w' := AfterFlush(w);
        if sync then w'.(synced := w'.file) else w'
  }

  ghost function ExecData(w: WriterState, key: LeaseKey, offset: nat, data: seq<byte>): WriterState {
    if key !in w.active || data == [] then AtWatermark(w)
    else if w.active[key].Some? && w.active[key].value != offset then w.(alive := false)
    else
      match InsertChunk(w.cache, key, offset, data)
      case (_, Err(_)) => w.(alive := false)
      case (m', Ok) => AtWatermark(w.(cache := m', active := w.active[key := Some(offset + |data|)]))
  }

  ghost function AtWatermark(w: WriterState): WriterState {
    if Buffered(w.cache) >= w.watermark then AfterFlush(w) else w
  }

  /** The cache once `c`'s chunk is in it, before any flush. */
  function Inserted(w: WriterState, c: Cmd): Buffers {
    if c.Data? && c.key in w.active then InsertChunk(w.cache, c.key, c.offset, c.data).0 else w.cache
  }

  /** The command makes the writer flush its whole cache. */
  ghost predicate Flushes(w: WriterState, c: Cmd) {
    c.FlushAll? || (c.Data? && Buffered(Inserted(w, c)) >= w.watermark)
  }

  /** Where the writer expects the next byte of a lease. */
  ghost predicate Expects(w: WriterState, key: LeaseKey, offset: nat) {
    && w.alive && key in w.active && (w.active[key].None? || w.active[key].value == offset)
    && (key in w.cache ==> w.cache[key].End() == offset)
  }

  /** The writer after working off a whole queue. */
  ghost function Replay(w: WriterState, queue: seq<Cmd>): WriterState
    decreases |queue|
  {
    if queue == [] then w else Replay(Exec(w, queue[0]), queue[1..])
  }

  // ----- contents

  /** Byte `x` is in the file with its right value. */
  predicate Good(file: File, content: nat -> byte, x: nat) {
    x in file && file[x] == content(x)
  }

  ghost predicate Matches(content: nat -> byte, offset: nat, data: seq<byte>) {
    forall i :: 0 <= i < |data| ==> data[i] == content(offset + i)
  }

  ghost predicate CmdOk(c: Cmd, content: nat -> byte, total: nat) {
    c.Data? ==> Matches(content, c.offset, c.data) && c.offset + |c.data| <= total
  }

  ghost predicate QueueOk(queue: seq<Cmd>, content: nat -> byte, total: nat) {
    forall i :: 0 <= i < |queue| ==> CmdOk(queue[i], content, total)
  }

  ghost predicate BuffersOk(m: Buffers, content: nat -> byte, total: nat) {
    forall k :: k in m ==> Matches(content, m[k].offset, m[k].data) && m[k].End() <= total
  }

  ghost predicate WriterOk(w: WriterState, content: nat -> byte, total: nat) {
    && BuffersOk(w.cache, content, total)
    && (forall x :: x in w.file ==> x < total)
    && (forall x :: x in w.synced ==> x < total)
    && (forall x :: Good(w.synced, content, x) ==> Good(w.file, content, x))
  }

  /** Every byte of `[lo, hi)` is in the file or in the buffer of `key`. */
  ghost predicate Stored(w: WriterState, content: nat -> byte, key: LeaseKey, lo: nat, hi: nat) {
    forall x: nat :: lo <= x < hi ==> Good(w.file, content, x) || BufferedAt(w.cache, key, x)
  }

  ghost predicate InFile(w: WriterState, content: nat -> byte, lo: nat, hi: nat) {
    forall x: nat :: lo <= x < hi ==> Good(w.file, content, x)
  }
}

/** What the writer keeps: right bytes stay right, and buffered bytes reach the file. */
module WriterLaws {
  import opened Arith
  import opened Leases
  import opened Cache
  import opened Writer

  lemma FlushedFile(file: File, m: Buffers, content: nat -> byte, total: nat)
    requires BuffersOk(m, content, total) && forall x :: x in file ==> x < total
    ensures var f := Flushed(file, m);
            && (forall x :: x in f ==> x < total)
            && (forall x :: Good(file, content, x) ==> Good(f, content, x))
            && (forall key, x: nat :: BufferedAt(m, key, x) ==> Good(f, content, x))
  {
    var f := Flushed(file, m);
    forall key, x: nat | BufferedAt(m, key, x) ensures Good(f, content, x) {
      BufferedIsGood(m, content, total, x);
    }
    forall x: nat | Good(file, content, x) ensures Good(f, content, x) {
      if AnyBuffered(m, x) {
        BufferedIsGood(m, content, total, x);
      }
    }
    forall x | x in f ensures x < total {
      if x !in file {
        assert AnyBuffered(m, x);
        BufferedIsGood(m, content, total, x);
      }
    }
  }

  lemma BufferedIsGood(m: Buffers, content: nat -> byte, total: nat, x: nat)
    requires BuffersOk(m, content, total) && AnyBuffered(m, x)
    ensures BufferedByte(m, x) == content(x) && x < total
  {
    var key :| BufferedAt(m, key, x) && BufferedByte(m, x) == m[key].data[x - m[key].offset];
    assert Matches(content, m[key].offset, m[key].data);
  }

  lemma WriteBlockAt(file: File, b: Block, x: nat)
    ensures InBlock(b, x) ==> x in WriteBlock(file, b) && WriteBlock(file, b)[x] == b.data[x - b.offset]
    ensures !InBlock(b, x) ==> (x in WriteBlock(file, b) <==> x in file)
    ensures !InBlock(b, x) && x in file ==> WriteBlock(file, b)[x] == file[x]
  {
    assert x in SpanOf(b) <==> InBlock(b, x);
  }

  lemma {:induction false} WriteAllAt(file: File, blocks: seq<Block>, i: nat, x: nat)
    requires NonOverlapping(blocks) && i < |blocks| && InBlock(blocks[i], x)
    ensures x in WriteAll(file, blocks) && WriteAll(file, blocks)[x] == blocks[i].data[x - blocks[i].offset]
    decreases |blocks|
  {
    hide WriteBlock;
    var n := |blocks| - 1;
    WriteBlockAt(WriteAll(file, blocks[..n]), blocks[n], x);
    if i < n {
      assert blocks[i].End() <= blocks[n].offset;
      WriteAllAt(file, blocks[..n], i, x);
    }
  }

  lemma {:induction false} WriteAllElsewhere(file: File, blocks: seq<Block>, x: nat)
    requires forall i :: 0 <= i < |blocks| ==> !InBlock(blocks[i], x)
    ensures x in WriteAll(file, blocks) <==> x in file
    ensures x in file ==> WriteAll(file, blocks)[x] == file[x]
    decreases |blocks|
  {
    hide WriteBlock;
    if blocks != [] {
      var n := |blocks| - 1;
      WriteAllElsewhere(file, blocks[..n], x);
      WriteBlockAt(WriteAll(file, blocks[..n]), blocks[n], x);
    }
  }

  /** Writing the drained blocks in order is the flush of the whole cache: every buffered byte
      lands in the file and no other byte of it changes. */
  lemma DrainThenWrite(file: File, m: Buffers, owners: seq<LeaseKey>, blocks: seq<Block>)
    requires DrainedAs(m, owners, blocks) && NonOverlapping(blocks)
    ensures WriteAll(file, blocks) == Flushed(file, m)
  {
    var f := WriteAll(file, blocks);
    forall x: nat
      ensures x in f <==> x in Flushed(file, m)
      ensures x in f ==> f[x] == Flushed(file, m)[x]
    {
      DrainThenWriteAt(file, m, owners, blocks, x);
    }
  }

  lemma DrainThenWriteAt(file: File, m: Buffers, owners: seq<LeaseKey>, blocks: seq<Block>, x: nat)
    requires DrainedAs(m, owners, blocks) && NonOverlapping(blocks)
    ensures x in WriteAll(file, blocks) <==> x in Flushed(file, m)
    ensures x in WriteAll(file, blocks) ==> WriteAll(file, blocks)[x] == Flushed(file, m)[x]
  {
    hide WriteAll;
    if AnyBuffered(m, x) {
      var key :| BufferedAt(m, key, x) && BufferedByte(m, x) == m[key].data[x - m[key].offset];
      assert key in owners;
      var i :| 0 <= i < |owners| && owners[i] == key;
      WriteAllAt(file, blocks, i, x);
    } else {
      forall i | 0 <= i < |blocks| ensures !InBlock(blocks[i], x) {
        assert !BufferedAt(m, owners[i], x);
      }
      WriteAllElsewhere(file, blocks, x);
    }
  }

  /** A lease accepts the chunk it expects next. */
  lemma AcceptsNext(w: WriterState, key: LeaseKey, offset: nat, data: seq<byte>)
    requires Expects(w, key, offset) && data != []
    ensures Expects(Exec(w, Data(key, offset, data)), key, offset + |data|)
  {
    hide AfterFlush, Buffered;
    var w1 := w.(cache := InsertChunk(w.cache, key, offset, data).0, active := w.active[key := Some(offset + |data|)]);
    AfterFlushSynced(w1);
  }

  lemma AfterFlushOk(w: WriterState, content: nat -> byte, total: nat)
    requires WriterOk(w, content, total)
    ensures var w' := AfterFlush(w);
            && WriterOk(w', content, total)
            && (forall x :: Good(w.file, content, x) ==> Good(w'.file, content, x))
            && (forall key, lo: nat, hi: nat :: Stored(w, content, key, lo, hi) ==> InFile(w', content, lo, hi))
  {
    hide Flushed;
    FlushedFile(w.file, w.cache, content, total);
  }

  lemma WriteBlockOk(w: WriterState, content: nat -> byte, total: nat, key: LeaseKey)
    requires WriterOk(w, content, total) && key in w.cache
    ensures var f := WriteBlock(w.file, w.cache[key]);
            && (forall x :: x in f ==> x < total)
            && (forall x :: Good(w.file, content, x) ==> Good(f, content, x))
            && (forall x: nat :: BufferedAt(w.cache, key, x) ==> Good(f, content, x))
  {
    assert Matches(content, w.cache[key].offset, w.cache[key].data);
  }

  lemma InsertOk(m: Buffers, key: LeaseKey, offset: nat, data: seq<byte>, content: nat -> byte, total: nat)
    requires BuffersOk(m, content, total) && Matches(content, offset, data) && offset + |data| <= total
    requires data != [] && InsertChunk(m, key, offset, data).1.Ok?
    ensures var m' := InsertChunk(m, key, offset, data).0;
            && BuffersOk(m', content, total)
            && (forall k, x: nat :: BufferedAt(m, k, x) ==> BufferedAt(m', k, x))
            && (forall x: nat :: offset <= x < offset + |data| ==> BufferedAt(m', key, x))
  {
  }

  /** A command keeps the writer well-formed and every right byte right. */
  lemma ExecOk(w: WriterState, c: Cmd, content: nat -> byte, total: nat)
    requires WriterOk(w, content, total) && CmdOk(c, content, total)
    ensures WriterOk(Exec(w, c), content, total)
    ensures forall x :: Good(w.file, content, x) ==> Good(Exec(w, c).file, content, x)
    ensures forall x :: Good(w.synced, content, x) ==> Good(Exec(w, c).synced, content, x)
  {
    hide Good, Matches, AfterFlush, WriteBlock, InsertChunk, Buffered;
    if w.alive {
      match c {
        case BeginLease(_) =>
        case Data(key, offset, data) => ExecDataOk(w, key, offset, data, content, total);
        case FlushLease(key) => if key in w.cache { WriteBlockOk(w, content, total, key); }
        case DiscardLease(_) =>
        case FlushAll(_) => AfterFlushOk(w, content, total); AfterFlushSynced(w);
      }
    }
  }

  lemma AfterFlushSynced(w: WriterState)
    ensures AfterFlush(w).synced == w.synced && AfterFlush(w).alive == w.alive
    ensures AfterFlush(w).cache == map[] && AfterFlush(w).active == w.active
  {
  }

  lemma AtWatermarkOk(w: WriterState, content: nat -> byte, total: nat)
    requires WriterOk(w, content, total)
    ensures var w' := AtWatermark(w);
            && WriterOk(w', content, total) && w'.synced == w.synced && w'.active == w.active && w'.alive == w.alive
            && (forall x :: Good(w.file, content, x) ==> Good(w'.file, content, x))
            && (forall key, lo: nat, hi: nat :: Stored(w, content, key, lo, hi) ==> Stored(w', content, key, lo, hi))
  {
    hide AfterFlush, Buffered;
    AfterFlushOk(w, content, total);
    AfterFlushSynced(w);
  }

  lemma ExecDataOk(w: WriterState, key: LeaseKey, offset: nat, data: seq<byte>, content: nat -> byte, total: nat)
    requires WriterOk(w, content, total) && CmdOk(Data(key, offset, data), content, total)
    ensures var w' := ExecData(w, key, offset, data);
            && WriterOk(w', content, total) && w'.synced == w.synced
            && (forall x :: Good(w.file, content, x) ==> Good(w'.file, content, x))
  {
    hide Good, Matches, AtWatermark, InsertChunk;
    AtWatermarkOk(w, content, total);
    if key in w.active && data != [] && InsertChunk(w.cache, key, offset, data).1.Ok? {
      InsertOk(w.cache, key, offset, data, content, total);
      var w1 := w.(cache := InsertChunk(w.cache, key, offset, data).0,
                   active := w.active[key := Some(offset + |data|)]);
      AtWatermarkOk(w1, content, total);
    }
  }

  /** Stored bytes stay stored unless their lease is discarded. */
  lemma ExecKeepsStored(w: WriterState, c: Cmd, content: nat -> byte, total: nat, key: LeaseKey, lo: nat, hi: nat)
    requires WriterOk(w, content, total) && CmdOk(c, content, total)
    requires Stored(w, content, key, lo, hi) && c != DiscardLease(key)
    ensures Stored(Exec(w, c), content, key, lo, hi)
    ensures c == FlushLease(key) && w.alive ==> InFile(Exec(w, c), content, lo, hi)
  {
    hide Good, Matches, AfterFlush, WriteBlock, InsertChunk, Buffered, ExecData;
    if w.alive {
      match c {
        case BeginLease(_) =>
        case Data(k, offset, data) => ExecDataStored(w, k, offset, data, content, total, key, lo, hi);
        case FlushLease(k) => if k in w.cache { WriteBlockOk(w, content, total, k); }
        case DiscardLease(_) =>
        case FlushAll(_) => AfterFlushOk(w, content, total); AfterFlushSynced(w);
      }
    }
  }

  lemma ExecDataStored(w: WriterState, k: LeaseKey, offset: nat, data: seq<byte>, content: nat -> byte, total: nat,
                       key: LeaseKey, lo: nat, hi: nat)
    requires WriterOk(w, content, total) && CmdOk(Data(k, offset, data), content, total)
    requires Stored(w, content, key, lo, hi)
    ensures Stored(ExecData(w, k, offset, data), content, key, lo, hi)
    ensures k == key && hi == offset && key in w.active && ExecData(w, k, offset, data).alive ==>
              Stored(ExecData(w, k, offset, data), content, key, lo, offset + |data|)
  {
    hide Good, Matches, AtWatermark, InsertChunk;
    AtWatermarkOk(w, content, total);
    if k in w.active && data != [] && InsertChunk(w.cache, k, offset, data).1.Ok? {
      InsertOk(w.cache, k, offset, data, content, total);
      var w1 := w.(cache := InsertChunk(w.cache, k, offset, data).0, active := w.active[k := Some(offset + |data|)]);
      AtWatermarkOk(w1, content, total);
      assert Stored(w1, content, key, lo, hi);
      if k == key && hi == offset {
        assert Stored(w1, content, key, lo, offset + |data|);
      }
    }
  }

  /** A lease stays open in the writer until it is flushed or discarded. */
  lemma ExecKeepsOpen(w: WriterState, c: Cmd, key: LeaseKey)
    requires key in w.active && c != FlushLease(key) && c != DiscardLease(key)
    ensures key in Exec(w, c).active
  {
    hide AfterFlush, InsertChunk, Buffered;
    AfterFlushSynced(w);
    if c.Data? && InsertChunk(w.cache, c.key, c.offset, c.data).1.Ok? {
      AfterFlushSynced(w.(cache := InsertChunk(w.cache, c.key, c.offset, c.data).0,
                          active := w.active[c.key := Some(c.offset + |c.data|)]));
    }
  }

  /** A synchronising flush makes the synced copy equal to the file. */
  lemma FlushAllSyncs(w: WriterState)
    requires w.alive
    ensures Exec(w, FlushAll(true)).synced == Exec(w, FlushAll(true)).file
  {
  }

  lemma {:induction false} ReplayAppend(w: WriterState, queue: seq<Cmd>, c: Cmd)
    ensures Replay(w, queue + [c]) == Exec(Replay(w, queue), c)
    decreases |queue|
  {
    hide Exec;
    if queue == [] {
      assert queue + [c] == [c] && [c][1..] == [];
      assert Replay(w, [c]) == Replay(Exec(w, c), []);
    } else {
      assert (queue + [c])[1..] == queue[1..] + [c];
      ReplayAppend(Exec(w, queue[0]), queue[1..], c);
    }
  }

  lemma {:induction false} ReplayOk(w: WriterState, queue: seq<Cmd>, content: nat -> byte, total: nat)
    requires WriterOk(w, content, total) && QueueOk(queue, content, total)
    ensures WriterOk(Replay(w, queue), content, total)
    decreases |queue|
  {
    hide Exec, WriterOk, CmdOk;
    if queue != [] {
      ExecOk(w, queue[0], content, total);
      ReplayOk(Exec(w, queue[0]), queue[1..], content, total);
    }
  }
}
