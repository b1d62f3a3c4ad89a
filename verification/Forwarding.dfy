/** Splitting a body frame into writer commands (`MemoryBudget::forward_observed` in
    `src/session/flow.rs`) and what the writer makes of them. */
module Forwarding {
  import opened Arith
  import opened Leases
  import opened Cache
  import opened Writer
  import opened WriterLaws

  /** How the wait for one chunk ends: it was sent, a stop came first, or the writer is gone. */
  datatype Outcome = Sent | Stopped | Closed

  datatype Forwarded = Done | StopError | ChannelClosed

  /** Commands that carry `data` from `offset` on, in order and without a gap. */
  ghost predicate Carries(cmds: seq<Cmd>, key: LeaseKey, offset: nat, data: seq<byte>)
    decreases |cmds|
  {
    if cmds == [] then data == []
    else
      var c := cmds[0];
      && c.Data? && c.key == key && c.offset == offset && c.data <= data
      && Carries(cmds[1..], key, offset + |c.data|, data[|c.data|..])
  }

  ghost predicate Bounded(cmds: seq<Cmd>, maxChunk: nat) {
    forall i :: 0 <= i < |cmds| ==> cmds[i].Data? && 1 <= |cmds[i].data| <= maxChunk
  }

  lemma {:induction false} CarriesSnoc(cmds: seq<Cmd>, key: LeaseKey, offset: nat, data: seq<byte>, more: seq<byte>)
    requires Carries(cmds, key, offset, data)
    ensures Carries(cmds + [Data(key, offset + |data|, more)], key, offset, data + more)
    decreases |cmds|
  {
    var all := cmds + [Data(key, offset + |data|, more)];
    if cmds == [] {
      assert all[1..] == [] && data + more == more;
      assert more[|more|..] == [];
    } else {
      var n := |cmds[0].data|;
      CarriesSnoc(cmds[1..], key, offset + n, data[n..], more);
      assert all[1..] == cmds[1..] + [Data(key, offset + |data|, more)];
      assert (data + more)[n..] == data[n..] + more;
    }
  }

  /** Exactly the commands sent are accounted: they carry a prefix of the frame in chunks of
      one to `maxChunk` bytes, and the whole frame unless a stop or a closed channel ended
      the attempt. */
  method ForwardObserved(data: seq<byte>, offset: nat, key: LeaseKey, maxChunk: nat, outcomes: nat -> Outcome)
    returns (cmds: seq<Cmd>, sent: nat, result: Forwarded)
    requires maxChunk >= 1
    ensures sent <= |data| && Carries(cmds, key, offset, data[..sent]) && Bounded(cmds, maxChunk)
    ensures result.Done? <==> sent == |data|
    ensures forall i :: 0 <= i < |cmds| ==> outcomes(i).Sent?
    ensures result.StopError? ==> outcomes(|cmds|).Stopped?
    ensures result.ChannelClosed? ==> outcomes(|cmds|).Closed?
  {
    cmds, sent := [], 0;
    var rest, at := data, offset;
    while rest != []
      invariant sent <= |data| && rest == data[sent..] && at == offset + sent
      invariant Carries(cmds, key, offset, data[..sent]) && Bounded(cmds, maxChunk)
      invariant forall i :: 0 <= i < |cmds| ==> outcomes(i).Sent?
      decreases |rest|
    {
      var len := Min(|rest|, maxChunk);
      match outcomes(|cmds|) {
        case Stopped => return cmds, sent, StopError;
        case Closed => return cmds, sent, ChannelClosed;
        case Sent =>
      }
      CarriesSnoc(cmds, key, offset, data[..sent], rest[..len]);
      assert data[..sent] + rest[..len] == data[..sent + len];
      cmds := cmds + [Data(key, at, rest[..len])];
      rest := rest[len..];
      at, sent := at + len, sent + len;
    }
    assert data[..sent] == data;
    result := Done;
  }

  /** The cache after a sequence of accepted chunks. */
  function InsertAll(m: Buffers, cmds: seq<Cmd>): Buffers
    requires forall i :: 0 <= i < |cmds| ==> cmds[i].Data?
    decreases |cmds|
  {
    if cmds == [] then m
    else InsertAll(InsertChunk(m, cmds[0].key, cmds[0].offset, cmds[0].data).0, cmds[1..])
  }

  function Buffer(m: Buffers, key: LeaseKey, offset: nat): Entry {
    if key in m then m[key] else Entry(offset, [])
  }

  /** Forward then cache: the lease's buffer grows by exactly the forwarded bytes, no other
      buffer changes, and the cache's byte count grows by the same amount. */
  lemma {:induction false} ForwardedIsCached(m: Buffers, cmds: seq<Cmd>, key: LeaseKey, offset: nat, data: seq<byte>,
                                             maxChunk: nat)
    requires Carries(cmds, key, offset, data) && Bounded(cmds, maxChunk)
    requires Buffer(m, key, offset).End() == offset
    ensures var entry := Buffer(m, key, offset);
            InsertAll(m, cmds) == if data == [] then m else m[key := Entry(entry.offset, entry.data + data)]
    ensures Buffered(InsertAll(m, cmds)) == Buffered(m) + |data|
    decreases |cmds|
  {
    hide Buffered;
    if cmds != [] {
      var c := cmds[0];
      var n := |c.data|;
      var m' := InsertChunk(m, key, offset, c.data).0;
      InsertBuffered(m, key, offset, c.data);
      ForwardedIsCached(m', cmds[1..], key, offset + n, data[n..], maxChunk);
      var entry := Buffer(m, key, offset);
      assert entry.data + data == entry.data + c.data + data[n..];
      if data[n..] == [] {
        assert data == c.data;
      }
    }
  }

  /** Forwarding then writing: an open lease accepts every chunk of a forwarded frame, and
      afterwards each byte of the frame is in the file or in the lease's buffer with its
      right value, whatever was stored for the lease before. */
  lemma {:induction false} ForwardedIsStored(w: WriterState, cmds: seq<Cmd>, key: LeaseKey, lo: nat, offset: nat,
                                             data: seq<byte>, maxChunk: nat, content: nat -> byte, total: nat)
    requires Carries(cmds, key, offset, data) && Bounded(cmds, maxChunk) && Expects(w, key, offset)
    requires WriterOk(w, content, total) && Matches(content, offset, data) && offset + |data| <= total
    requires lo <= offset && Stored(w, content, key, lo, offset)
    ensures var w' := Replay(w, cmds);
            && Expects(w', key, offset + |data|) && WriterOk(w', content, total)
            && Stored(w', content, key, lo, offset + |data|)
    decreases |cmds|
  {
    hide Exec, Good, WriterOk, Stored, Matches, ExecData;
    if cmds != [] {
      var c := cmds[0];
      var n := |c.data|;
      MatchesParts(content, offset, data, n);
      assert c == Data(key, offset, c.data) && c.data == data[..n];
      assert CmdOk(c, content, total);
      AcceptsNext(w, key, offset, c.data);
      ExecOk(w, c, content, total);
      ExecOneData(w, key, offset, c.data);
      ExecDataStored(w, key, offset, c.data, content, total, key, lo, offset);
      ForwardedIsStored(Exec(w, c), cmds[1..], key, lo, offset + n, data[n..], maxChunk, content, total);
    }
  }

  lemma ExecOneData(w: WriterState, key: LeaseKey, offset: nat, data: seq<byte>)
    requires w.alive
    ensures Exec(w, Data(key, offset, data)) == ExecData(w, key, offset, data)
  {
  }

  lemma MatchesParts(content: nat -> byte, offset: nat, data: seq<byte>, n: nat)
    requires Matches(content, offset, data) && n <= |data|
    ensures Matches(content, offset, data[..n]) && Matches(content, offset + n, data[n..])
  {
    assert forall i :: 0 <= i < |data| - n ==> data[n..][i] == data[n + i];
  }
}
