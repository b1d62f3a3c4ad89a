/** Half-open byte ranges and the range set of `src/scheduler.rs`: a vector of
    ranges kept sorted, non-empty and separated by gaps. */
module Ranges {
  import opened Arith

  datatype ByteRange = ByteRange(start: nat, end: nat)

  predicate Covers(r: ByteRange, x: int) {
    r.start <= x < r.end
  }

  predicate Disjoint(a: ByteRange, b: ByteRange) {
    a.end <= b.start || b.end <= a.start
  }

  /** The unique normal form: every range is non-empty and strictly before the next
      with at least one absent byte in between. */
  ghost predicate Canonical(rs: seq<ByteRange>) {
    && (forall i :: 0 <= i < |rs| ==> rs[i].start < rs[i].end)
    && (forall i, j :: 0 <= i < j < |rs| ==> rs[i].end < rs[j].start)
  }

  /** Membership of a byte in a range set. */
  ghost predicate Has(rs: seq<ByteRange>, x: int) {
    exists i :: 0 <= i < |rs| && Covers(rs[i], x)
  }

  ghost predicate Within(rs: seq<ByteRange>, lo: int, hi: int) {
    forall i :: 0 <= i < |rs| ==> lo <= rs[i].start && rs[i].end <= hi
  }

  function Bytes(rs: seq<ByteRange>): (n: int) {
    if rs == [] then 0 else rs[0].end - rs[0].start + Bytes(rs[1..])
  }

  function NewFull(start: nat, end: nat): (rs: seq<ByteRange>) {
    if start < end then [ByteRange(start, end)] else []
  }

  function Merge(a: ByteRange, b: ByteRange): ByteRange {
    ByteRange(Min(a.start, b.start), Max(a.end, b.end))
  }

  /** What inserting `r` leaves: ranges before `r` are kept, ranges touching or
      overlapping it are absorbed. */
  function Insert(rs: seq<ByteRange>, r: ByteRange): (out: seq<ByteRange>) {
    if rs == [] then [r]
    else if rs[0].end < r.start then [rs[0]] + Insert(rs[1..], r)
    else if r.end < rs[0].start then [r] + rs
    else Insert(rs[1..], Merge(rs[0], r))
  }

  /** The parts of `current` outside `r`. */
  function Cut(current: ByteRange, r: ByteRange): seq<ByteRange> {
    (if current.start < r.start then [ByteRange(current.start, r.start)] else [])
    + (if r.end < current.end then [ByteRange(r.end, current.end)] else [])
  }

  predicate Encloses(current: ByteRange, r: ByteRange) {
    current.start <= r.start && r.end <= current.end
  }

  /** What removing `r` leaves, or `None` when no single range encloses it. */
  function Remove(rs: seq<ByteRange>, r: ByteRange): (out: Option<seq<ByteRange>>) {
    if rs == [] then None
    else if Encloses(rs[0], r) then Some(Cut(rs[0], r) + rs[1..])
    else
      match Remove(rs[1..], r)
      case None => None
      case Some(rest) => Some([rs[0]] + rest)
  }
}

module RangeLaws {
  import opened Arith
  import opened Ranges

  lemma CanonicalTail(rs: seq<ByteRange>)
    requires Canonical(rs) && rs != []
    ensures Canonical(rs[1..])
    ensures forall x :: Has(rs, x) <==> Covers(rs[0], x) || Has(rs[1..], x)
    ensures forall x :: Has(rs[1..], x) ==> rs[0].end < x
  {
    HasConcat([rs[0]], rs[1..]);
    assert rs == [rs[0]] + rs[1..];
    HasOne(rs[0]);
  }

  lemma HasOne(r: ByteRange)
    ensures forall x :: Has([r], x) <==> Covers(r, x)
  {
    forall x | Covers(r, x) ensures Has([r], x) {
      assert Covers([r][0], x);
    }
  }

  lemma HasConcat(a: seq<ByteRange>, b: seq<ByteRange>)
    ensures forall x :: Has(a + b, x) <==> Has(a, x) || Has(b, x)
  {
    forall x ensures Has(a + b, x) <==> Has(a, x) || Has(b, x) {
      if Has(a, x) {
        var i :| 0 <= i < |a| && Covers(a[i], x);
        assert Covers((a + b)[i], x);
      }
      if Has(b, x) {
        var i :| 0 <= i < |b| && Covers(b[i], x);
        assert Covers((a + b)[|a| + i], x);
      }
    }
  }

  lemma {:induction false} BytesPositive(rs: seq<ByteRange>)
    requires Canonical(rs)
    ensures Bytes(rs) >= 0
    ensures Bytes(rs) == 0 <==> rs == []
  {
    if rs != [] {
      CanonicalTail(rs);
      BytesPositive(rs[1..]);
    }
  }

  /** The normal form is determined by the bytes it holds. */
  lemma {:induction false} CanonicalUnique(a: seq<ByteRange>, b: seq<ByteRange>)
    requires Canonical(a) && Canonical(b)
    requires forall x :: Has(a, x) <==> Has(b, x)
    ensures a == b
  {
    assert a != [] ==> Covers(a[0], a[0].start) && Has(a, a[0].start);
    assert b != [] ==> Covers(b[0], b[0].start) && Has(b, b[0].start);
    if a != [] {
      CanonicalTail(a);
      CanonicalTail(b);
      assert Has(a, a[0].start) && Has(b, b[0].start);
      assert a[0].start == b[0].start;
      assert !Has(a, a[0].end) && !Has(b, b[0].end);
      assert Has(b, a[0].end) <==> a[0].end < b[0].end;
      assert Has(a, b[0].end) <==> b[0].end < a[0].end;
      assert a[0] == b[0];
      CanonicalUnique(a[1..], b[1..]);
      assert a == [a[0]] + a[1..] && b == [b[0]] + b[1..];
    }
  }

  lemma ConsCanonical(r: ByteRange, rs: seq<ByteRange>)
    requires r.start < r.end && Canonical(rs)
    requires rs != [] ==> r.end < rs[0].start
    ensures Canonical([r] + rs)
    ensures forall x :: Has([r] + rs, x) <==> Covers(r, x) || Has(rs, x)
  {
    HasConcat([r], rs);
    HasOne(r);
    var all := [r] + rs;
    forall i, j | 0 <= i < j < |all| ensures all[i].end < all[j].start {
      assert all[j] == rs[j - 1];
      if i > 0 {
        assert all[i] == rs[i - 1];
      } else if j > 1 {
        assert rs[0].end < rs[j - 1].start;
      }
    }
  }

  /** Inserting keeps the normal form and adds exactly the bytes of `r`. */
  lemma {:induction false} InsertCorrect(rs: seq<ByteRange>, r: ByteRange)
    requires Canonical(rs) && r.start < r.end
    ensures Canonical(Insert(rs, r))
    ensures forall x :: Has(Insert(rs, r), x) <==> Has(rs, x) || Covers(r, x)
    ensures Insert(rs, r) != []
    ensures Insert(rs, r)[0].start == if rs == [] then r.start else Min(rs[0].start, r.start)
  {
    if rs == [] {
      HasOne(r);
    } else {
      CanonicalTail(rs);
      if rs[0].end < r.start {
        InsertCorrect(rs[1..], r);
        ConsCanonical(rs[0], Insert(rs[1..], r));
      } else if r.end < rs[0].start {
        ConsCanonical(r, rs);
      } else {
        InsertCorrect(rs[1..], Merge(rs[0], r));
      }
    }
  }

  /** A successful removal keeps the normal form and takes away exactly the bytes of `r`. */
  lemma {:induction false} RemoveEffect(rs: seq<ByteRange>, r: ByteRange) returns (out: seq<ByteRange>)
    requires Canonical(rs) && r.start < r.end && Remove(rs, r).Some?
    ensures out == Remove(rs, r).value
    ensures Canonical(out)
    ensures forall x :: Has(out, x) <==> Has(rs, x) && !Covers(r, x)
    ensures Bytes(out) == Bytes(rs) - (r.end - r.start)
    ensures out != [] ==> rs[0].start <= out[0].start
    ensures forall x :: Covers(r, x) ==> Has(rs, x)
  {
    CanonicalTail(rs);
    if Encloses(rs[0], r) {
      out := RemoveFromHead(rs, r);
      assert forall x :: Covers(r, x) ==> Covers(rs[0], x);
    } else {
      var rest := RemoveEffect(rs[1..], r);
      assert Covers(r, r.start) && Has(rs[1..], r.start);
      ConsCanonical(rs[0], rest);
      out := [rs[0]] + rest;
    }
  }

  /** Removal is refused exactly when some requested byte is absent. */
  lemma {:induction false} RemoveRefused(rs: seq<ByteRange>, r: ByteRange)
    requires Canonical(rs) && r.start < r.end && Remove(rs, r).None?
    ensures exists x :: Covers(r, x) && !Has(rs, x)
  {
    if rs == [] {
      assert Covers(r, r.start) && !Has(rs, r.start);
    } else {
      CanonicalTail(rs);
      RemoveRefused(rs[1..], r);
      var x :| Covers(r, x) && !Has(rs[1..], x);
      if Has(rs, x) {
        var y := if r.start < rs[0].start then r.start else rs[0].end;
        assert Covers(r, y) && !Has(rs, y);
      }
    }
  }

  lemma RemoveCorrect(rs: seq<ByteRange>, r: ByteRange)
    requires Canonical(rs) && r.start < r.end
    ensures Remove(rs, r).Some? <==> forall x :: Covers(r, x) ==> Has(rs, x)
    ensures Remove(rs, r).Some? ==>
              var out := Remove(rs, r).value;
              && Canonical(out)
              && (forall x :: Has(out, x) <==> Has(rs, x) && !Covers(r, x))
              && Bytes(out) == Bytes(rs) - (r.end - r.start)
  {
    if Remove(rs, r).Some? {
      var out := RemoveEffect(rs, r);
    } else {
      RemoveRefused(rs, r);
    }
  }

  lemma RemoveFromHead(rs: seq<ByteRange>, r: ByteRange) returns (out: seq<ByteRange>)
    requires Canonical(rs) && r.start < r.end && rs != [] && Encloses(rs[0], r)
    ensures out == Cut(rs[0], r) + rs[1..]
    ensures Canonical(out)
    ensures forall x :: Has(out, x) <==> Has(rs, x) && !Covers(r, x)
    ensures Bytes(out) == Bytes(rs) - (r.end - r.start)
    ensures out != [] ==> rs[0].start <= out[0].start
  {
    hide Canonical, Has, Cut, Bytes;
    CanonicalTail(rs);
    HeadBefore(rs);
    var head, tail := rs[0], rs[1..];
    var right := PrependTo(r.end, head.end, tail);
    out := PrependTo(head.start, r.start, right);
    CutParts(head, r, tail);
    BytesCons(rs);
  }

  lemma BytesCons(rs: seq<ByteRange>)
    requires rs != []
    ensures Bytes(rs) == rs[0].end - rs[0].start + Bytes(rs[1..])
  {
  }

  lemma CutParts(head: ByteRange, r: ByteRange, tail: seq<ByteRange>)
    requires head.start <= r.start < r.end <= head.end
    ensures Cut(head, r) + tail
         == (if head.start < r.start then [ByteRange(head.start, r.start)] else [])
            + ((if r.end < head.end then [ByteRange(r.end, head.end)] else []) + tail)
  {
  }

  lemma HeadBefore(rs: seq<ByteRange>)
    requires Canonical(rs) && rs != []
    ensures rs[0].start < rs[0].end && (rs[1..] != [] ==> rs[0].end < rs[1..][0].start)
  {
  }

  /** Putting the (possibly empty) range `[start, end)` before a set that begins after it. */
  lemma PrependTo(start: nat, end: nat, rs: seq<ByteRange>) returns (out: seq<ByteRange>)
    requires start <= end && Canonical(rs)
    requires rs != [] ==> end < rs[0].start
    ensures out == (if start < end then [ByteRange(start, end)] else []) + rs
    ensures Canonical(out)
    ensures forall x :: Has(out, x) <==> start <= x < end || Has(rs, x)
    ensures Bytes(out) == Bytes(rs) + (end - start)
    ensures out != [] && start < end ==> out[0].start == start
  {
    if start < end {
      ConsCanonical(ByteRange(start, end), rs);
      out := [ByteRange(start, end)] + rs;
      assert out[1..] == rs;
    } else {
      out := rs;
    }
  }

  /** Putting a removed range back restores the identical vector. */
  lemma ReinsertRestores(rs: seq<ByteRange>, r: ByteRange)
    requires Canonical(rs) && r.start < r.end && Remove(rs, r).Some?
    ensures Insert(Remove(rs, r).value, r) == rs
  {
    RemoveCorrect(rs, r);
    var out := Remove(rs, r).value;
    InsertCorrect(out, r);
    CanonicalUnique(Insert(out, r), rs);
  }

  /** Inserting bytes that were absent adds their number. */
  lemma InsertBytes(rs: seq<ByteRange>, r: ByteRange)
    requires Canonical(rs) && r.start < r.end
    requires forall x :: Covers(r, x) ==> !Has(rs, x)
    ensures Bytes(Insert(rs, r)) == Bytes(rs) + (r.end - r.start)
  {
    InsertCorrect(rs, r);
    var out := Insert(rs, r);
    RemoveCorrect(out, r);
    CanonicalUnique(Remove(out, r).value, rs);
  }

  /** The vector editing loop of `RangeSet::insert`. */
  method InsertInPlace(ranges0: seq<ByteRange>, range0: ByteRange) returns (ranges: seq<ByteRange>)
    ensures ranges == Insert(ranges0, range0)
  {
    ranges := ranges0;
    var range := range0;
    var index := 0;
    while index < |ranges|
      invariant 0 <= index <= |ranges|
      invariant ranges[..index] + Insert(ranges[index..], range) == Insert(ranges0, range0)
      decreases |ranges| - index
    {
      var current := ranges[index];
      if current.end < range.start {
        InsertSkips(ranges, index, range);
        index := index + 1;
        continue;
      }
      if range.end < current.start {
        break;
      }
      InsertMerges(ranges, index, range);
      range := Merge(current, range);
      ranges := ranges[..index] + ranges[index + 1..];
    }
    assert Insert(ranges[index..], range) == [range] + ranges[index..];
    ranges := ranges[..index] + [range] + ranges[index..];
  }

  lemma InsertSkips(rs: seq<ByteRange>, i: nat, r: ByteRange)
    requires i < |rs| && rs[i].end < r.start
    ensures rs[..i] + Insert(rs[i..], r) == rs[..i + 1] + Insert(rs[i + 1..], r)
  {
    assert rs[i..][1..] == rs[i + 1..];
    assert Insert(rs[i..], r) == [rs[i]] + Insert(rs[i + 1..], r);
    MoveAcross(rs[..i], rs[i], Insert(rs[i + 1..], r));
    assert rs[..i + 1] == rs[..i] + [rs[i]];
  }

  lemma MoveAcross(a: seq<ByteRange>, x: ByteRange, b: seq<ByteRange>)
    ensures a + ([x] + b) == (a + [x]) + b
  {
  }

  lemma InsertMerges(rs: seq<ByteRange>, i: nat, r: ByteRange)
    requires i < |rs| && rs[i].end >= r.start && r.end >= rs[i].start
    ensures var rest := rs[..i] + rs[i + 1..];
            rs[..i] + Insert(rs[i..], r) == rest[..i] + Insert(rest[i..], Merge(rs[i], r))
  {
    var rest := rs[..i] + rs[i + 1..];
    assert rs[i..][1..] == rs[i + 1..];
    assert rest[..i] == rs[..i] && rest[i..] == rs[i + 1..];
  }

  /** `Remove` acts on the first enclosing range. */
  lemma {:induction false} RemoveAt(rs: seq<ByteRange>, r: ByteRange, index: nat)
    requires index <= |rs|
    requires forall i :: 0 <= i < index ==> !Encloses(rs[i], r)
    requires index < |rs| ==> Encloses(rs[index], r)
    ensures Remove(rs, r) ==
            if index == |rs| then None else Some(rs[..index] + Cut(rs[index], r) + rs[index + 1..])
  {
    if index == 0 {
      if rs != [] {
        assert rs[..0] + Cut(rs[0], r) == Cut(rs[0], r);
      }
    } else {
      RemoveAt(rs[1..], r, index - 1);
      if index < |rs| {
        assert rs[index + 1..] == rs[1..][index..];
        assert rs[..index] + Cut(rs[index], r) + rs[index + 1..]
            == [rs[0]] + (rs[1..][..index - 1] + Cut(rs[index], r) + rs[1..][index..]);
      }
    }
  }

  /** The search and split of `RangeSet::remove`; a refusal leaves the vector alone. */
  method RemoveInPlace(ranges0: seq<ByteRange>, range: ByteRange) returns (ranges: seq<ByteRange>, ok: bool)
    ensures ok == Remove(ranges0, range).Some?
    ensures ranges == if ok then Remove(ranges0, range).value else ranges0
  {
    ranges := ranges0;
    var index := 0;
    while index < |ranges| && !Encloses(ranges[index], range)
      invariant 0 <= index <= |ranges|
      invariant forall i :: 0 <= i < index ==> !Encloses(ranges[i], range)
    {
      index := index + 1;
    }
    RemoveAt(ranges, range, index);
    if index == |ranges| {
      return ranges, false;
    }
    var current := ranges[index];
    ranges := ranges[..index] + ranges[index + 1..];
    var insertAt := index;
    if current.start < range.start {
      ranges := ranges[..insertAt] + [ByteRange(current.start, range.start)] + ranges[insertAt..];
      insertAt := insertAt + 1;
    }
    if range.end < current.end {
      ranges := ranges[..insertAt] + [ByteRange(range.end, current.end)] + ranges[insertAt..];
    }
    ok := true;
  }
}
