/** The write-back cache of `src/storage/cache.rs`: one contiguous buffer per lease. */
module Cache {
  import opened Arith
  import opened Ranges
  import opened Leases
  import opened SchedulerModel
  import opened SchedulerLaws
  import opened MapSums

  newtype byte = x: int | 0 <= x < 256

  datatype Entry = Entry(offset: nat, data: seq<byte>) {
    function End(): nat {
      offset + |data|
    }
  }

  /** A contiguous block ready to be written. */
  type Block = Entry

  type Buffers = map<LeaseKey, Entry>

  datatype WriteError = NonContiguous(expected: nat, actual: nat)
  datatype InsertResult = Ok | Err(error: WriteError)

  function Lengths(m: Buffers): map<LeaseKey, nat> {
    map k | k in m :: |m[k].data|
  }

  /** Bytes buffered over all leases. */
  ghost function Buffered(m: Buffers): nat {
    MapSum(Lengths(m))
  }

  /** Append a chunk to its lease's buffer; a gap or an overlap is refused. */
  function InsertChunk(m: Buffers, key: LeaseKey, offset: nat, data: seq<byte>): (Buffers, InsertResult) {
    if data == [] then (m, Ok)
    else if key in m && offset != m[key].End() then (m, Err(NonContiguous(m[key].End(), offset)))
    else
      var entry := if key in m then m[key] else Entry(offset, []);
      (m[key := Entry(entry.offset, entry.data + data)], Ok)
  }

  lemma InsertBuffered(m: Buffers, key: LeaseKey, offset: nat, data: seq<byte>)
    ensures var (m', r) := InsertChunk(m, key, offset, data);
            Buffered(m') == Buffered(m) + (if r.Ok? then |data| else 0)
  {
    var (m', r) := InsertChunk(m, key, offset, data);
    if data != [] && r.Ok? {
      assert Lengths(m') == Lengths(m)[key := |m'[key].data|];
      MapSumInsert(Lengths(m), key, |m'[key].data|);
    }
  }

  lemma RemoveBuffered(m: Buffers, key: LeaseKey)
    requires key in m
    ensures Buffered(m) == |m[key].data| + Buffered(m - {key})
  {
    MapSumRemove(Lengths(m), key);
    assert Lengths(m) - {key} == Lengths(m - {key});
  }

  // ----- the order of a full drain

  ghost predicate SortedByOffset(m: Buffers, owners: seq<LeaseKey>) {
    && (forall i :: 0 <= i < |owners| ==> owners[i] in m)
    && (forall i, j :: 0 <= i < j < |owners| ==> m[owners[i]].offset <= m[owners[j]].offset)
  }

  ghost predicate Distinct(owners: seq<LeaseKey>) {
    forall i, j :: 0 <= i < j < |owners| ==> owners[i] != owners[j]
  }

  /** Put a lease at its place in file order. */
  function Place(m: Buffers, owners: seq<LeaseKey>, k: LeaseKey): (out: seq<LeaseKey>)
    requires SortedByOffset(m, owners) && k in m
    ensures SortedByOffset(m, out)
    ensures forall q :: q in out <==> q in owners || q == k
  {
    if owners == [] || m[k].offset <= m[owners[0]].offset then
      [k] + owners
    else
      var rest := Place(m, owners[1..], k);
      assert forall q :: q in owners <==> q == owners[0] || q in owners[1..];
      assert forall q :: q in rest ==> m[owners[0]].offset <= m[q].offset;
      [owners[0]] + rest
  }

  lemma {:induction false} PlaceDistinct(m: Buffers, owners: seq<LeaseKey>, k: LeaseKey)
    requires SortedByOffset(m, owners) && k in m && Distinct(owners) && k !in owners
    ensures Distinct(Place(m, owners, k))
  {
    if owners != [] && m[k].offset > m[owners[0]].offset {
      PlaceDistinct(m, owners[1..], k);
      var rest := Place(m, owners[1..], k);
      assert owners[0] !in rest;
    }
  }

  /** The blocks are the buffers of all leases, each once, in file order. */
  ghost predicate DrainedAs(m: Buffers, owners: seq<LeaseKey>, blocks: seq<Block>) {
    && SortedByOffset(m, owners) && Distinct(owners) && (forall k :: k in owners <==> k in m)
    && |blocks| == |owners| && forall i :: 0 <= i < |blocks| ==> blocks[i] == m[owners[i]]
  }

  method FileOrder(m: Buffers) returns (order: seq<LeaseKey>)
    ensures SortedByOffset(m, order) && Distinct(order) && forall k :: k in order <==> k in m
  {
    order := [];
    var rest := m.Keys;
    while rest != {}
      invariant SortedByOffset(m, order) && Distinct(order)
      invariant forall k :: k in m <==> k in rest || k in order
      invariant forall k :: k in rest ==> k !in order
      decreases |rest|
    {
      var k :| k in rest;
      PlaceDistinct(m, order, k);
      order := Place(m, order, k);
      rest := rest - {k};
    }
  }

  class WriteBackCache {
    var pieces: Buffers
    var totalBytes: nat

    ghost predicate Valid()
      reads this
    {
      && totalBytes == Buffered(pieces)
      && forall k :: k in pieces ==> pieces[k].data != []
    }

    constructor ()
      ensures Valid() && pieces == map[]
    {
      pieces, totalBytes := map[], 0;
    }

    method Insert(key: LeaseKey, offset: nat, data: seq<byte>) returns (result: InsertResult)
      requires Valid()
      modifies this
      ensures Valid() && (pieces, result) == InsertChunk(old(pieces), key, offset, data)
    {
      if data == [] {
        return Ok;
      }
      InsertBuffered(pieces, key, offset, data);
      var entry := if key in pieces then pieces[key] else Entry(offset, []);
      var expected := entry.End();
      if offset != expected {
        return Err(NonContiguous(expected, offset));
      }
      pieces := pieces[key := Entry(entry.offset, entry.data + data)];
      totalBytes := totalBytes + |data|;
      result := Ok;
    }

    /** Take out the buffer of one lease. */
    method DrainLease(key: LeaseKey) returns (blocks: seq<Block>)
      requires Valid()
      modifies this
      ensures Valid() && pieces == old(pieces) - {key}
      ensures blocks == if key in old(pieces) then [old(pieces)[key]] else []
    {
      if key in pieces {
        RemoveBuffered(pieces, key);
        var entry := pieces[key];
        totalBytes := totalBytes - |entry.data|;
        pieces := pieces - {key};
        blocks := [entry];
      } else {
        assert pieces - {key} == pieces;
        blocks := [];
      }
    }

    /** Drop the buffer of one lease and say how many bytes were in it. */
    method DiscardLease(key: LeaseKey) returns (discarded: nat)
      requires Valid()
      modifies this
      ensures Valid() && pieces == old(pieces) - {key}
      ensures discarded == if key in old(pieces) then |old(pieces)[key].data| else 0
      ensures totalBytes == old(totalBytes) - discarded
    {
      if key in pieces {
        RemoveBuffered(pieces, key);
        var entry := pieces[key];
        totalBytes := totalBytes - |entry.data|;
        pieces := pieces - {key};
        discarded := |entry.data|;
      } else {
        assert pieces - {key} == pieces;
        discarded := 0;
      }
    }

    /** Take out every buffer, in file order. */
    method DrainAll() returns (blocks: seq<Block>, ghost owners: seq<LeaseKey>)
      requires Valid()
      modifies this
      ensures Valid() && pieces == map[] && totalBytes == 0
      ensures DrainedAs(old(pieces), owners, blocks)
    {
      var taken := pieces;
      pieces, totalBytes := map[], 0;
      var order := FileOrder(taken);
      blocks := seq(|order|, i requires 0 <= i < |order| && order[i] in taken => taken[order[i]]);
      owners := order;
    }
  }

  // ----- disjoint leases drain as non-overlapping blocks

  /** Every buffer lies inside the range of its active lease. */
  ghost predicate InsideLeases(s: State, m: Buffers) {
    forall k :: k in m ==>
      && Active(s, k) && RangeOf(s, k).start <= m[k].offset && m[k].End() <= RangeOf(s, k).end
      && m[k].data != []
  }

  ghost predicate NonOverlapping(blocks: seq<Block>) {
    forall i, j :: 0 <= i < j < |blocks| ==> blocks[i].End() <= blocks[j].offset
  }

  ghost predicate Apart(a: Block, b: Block) {
    a.End() <= b.offset || b.End() <= a.offset
  }

  /** Non-empty buffers no two of which share a byte. */
  ghost predicate AllApart(m: Buffers) {
    && (forall k :: k in m ==> m[k].data != [])
    && forall a, b :: a in m && b in m && a != b ==> Apart(m[a], m[b])
  }

  lemma BuffersApart(s: State, m: Buffers, a: LeaseKey, b: LeaseKey)
    requires Inv(s) && InsideLeases(s, m) && a in m && b in m && a != b
    ensures Apart(m[a], m[b])
  {
    ActiveBounds(s, a);
    ActiveBounds(s, b);
    if a.piece == b.piece {
      assert Disjoint(s.pieces[a.piece].leases[a.lease], s.pieces[a.piece].leases[b.lease]);
    } else if a.piece < b.piece {
      PieceMaps.PiecesTile(s.pm.g, a.piece, b.piece);
    } else {
      PieceMaps.PiecesTile(s.pm.g, b.piece, a.piece);
    }
  }

  /** Buffers inside distinct active leases share no byte. */
  lemma LeasedBuffersApart(s: State, m: Buffers)
    requires Inv(s) && InsideLeases(s, m)
    ensures AllApart(m)
  {
    hide Inv, Active, RangeOf;
    forall a, b | a in m && b in m && a != b ensures Apart(m[a], m[b]) {
      BuffersApart(s, m, a, b);
    }
  }

  /** Buffers that share no byte drain as sorted blocks that do not overlap. */
  lemma DrainedBlocksNonOverlapping(m: Buffers, owners: seq<LeaseKey>, blocks: seq<Block>)
    requires AllApart(m) && DrainedAs(m, owners, blocks)
    ensures NonOverlapping(blocks)
  {
    forall i, j | 0 <= i < j < |blocks| ensures blocks[i].End() <= blocks[j].offset {
      assert Apart(m[owners[i]], m[owners[j]]);
      assert m[owners[j]].data != [] && m[owners[i]].data != [];
    }
  }
}
