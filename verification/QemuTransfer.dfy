/** Scatter-gather transfers equal one contiguous transfer of the concatenated segments. */
module QemuTransfer {
  import opened Abi
  import opened QemuSpec

  // ----- write commands

  lemma SpliceTwice(storage: seq<Byte>, offset: nat, a: seq<Byte>, b: seq<Byte>)
    requires offset + |a| + |b| <= |storage|
    ensures Splice(Splice(storage, offset, a), offset + |a|, b) == Splice(storage, offset, a + b)
  {
  }

  ghost predicate InExact(storage: seq<Byte>, m: Memory, segs: seq<Segment>, storage': seq<Byte>, ok: bool, at: nat, left: nat)
    requires at + left <= |storage|
  {
    && (ok <==> Usable(segs) && Total(segs) == left)
    && (ok ==> storage' == Splice(storage, at, Gather(m, segs)))
  }

  lemma SglInAccept(storage: seq<Byte>, m: Memory, storage': seq<Byte>, ok: bool, segs: seq<Segment>, at: nat, left: nat)
    requires segs != [] && segs[0].addr != 0 && 0 < segs[0].length <= left && at + left <= |storage|
    requires InExact(Splice(storage, at, ReadMem(m, segs[0].addr, segs[0].length)), m, segs[1..], storage', ok, at + segs[0].length, left - segs[0].length)
    ensures InExact(storage, m, segs, storage', ok, at, left)
  {
    UsableSplit(segs);
    if ok {
      SpliceTwice(storage, at, ReadMem(m, segs[0].addr, segs[0].length), Gather(m, segs[1..]));
    }
  }

  /** The walk succeeds exactly when the remaining segments are usable and fill the remaining
      bytes, and then it has stored their concatenation. */
  lemma {:induction false} SglInExact(decode: Decoder, storage: seq<Byte>, m: Memory, list: int, i: nat, count: nat, offset: nat, length: nat, done: nat)
    requires i <= count && done <= length && offset + length <= |storage|
    ensures var (storage', ok) := SglIn(decode, storage, m, list, i, count, offset, length, done);
            InExact(storage, m, Segments(decode, m, list, i, count), storage', ok, offset + done, length - done)
    decreases count - i
  {
    var segs := Segments(decode, m, list, i, count);
    if i < count {
      var seg := DescAt(decode, m, list, i);
      assert segs[0] == seg && segs[1..] == Segments(decode, m, list, i + 1, count);
      if seg.addr == 0 || seg.length == 0 || seg.length > length - done {
        BadSegment(segs, length - done);
      } else {
        var next := Splice(storage, offset + done, ReadMem(m, seg.addr, seg.length));
        SglInExact(decode, next, m, list, i + 1, count, offset, length, done + seg.length);
        var (storage', ok) := SglIn(decode, storage, m, list, i, count, offset, length, done);
        SglInAccept(storage, m, storage', ok, segs, offset + done, length - done);
      }
    } else {
      assert Splice(storage, offset + done, []) == storage;
    }
  }

  lemma UsableSplit(segs: seq<Segment>)
    requires segs != []
    ensures Usable(segs) <==> segs[0].addr != 0 && segs[0].length != 0 && Usable(segs[1..])
  {
    assert segs == [segs[0]] + segs[1..];
  }

  /** Bytes outside the range never change, even when the list turns out to be bad half way. */
  lemma {:induction false} SglInFrame(decode: Decoder, storage: seq<Byte>, m: Memory, list: int, i: nat, count: nat, offset: nat, length: nat, done: nat)
    requires i <= count && done <= length && offset + length <= |storage|
    ensures var (storage', ok) := SglIn(decode, storage, m, list, i, count, offset, length, done);
            storage'[..offset] == storage[..offset] && storage'[offset + length..] == storage[offset + length..]
    decreases count - i
  {
    if i < count {
      var seg := DescAt(decode, m, list, i);
      if seg.addr != 0 && seg.length != 0 && seg.length <= length - done {
        var next := Splice(storage, offset + done, ReadMem(m, seg.addr, seg.length));
        SglInFrame(decode, next, m, list, i + 1, count, offset, length, done + seg.length);
        assert next[..offset] == storage[..offset] && next[offset + length..] == storage[offset + length..];
      }
    }
  }

  /** A write through a list succeeds exactly for valid lists; it then equals a contiguous write of
      the concatenation, and in every case touches nothing outside its range. */
  lemma WriteThroughList(storage: seq<Byte>, m: Memory, c: Command, offset: nat, length: nat)
    requires offset + length <= |storage| && c.Sgl()
    ensures var (storage', ok) := TransferIn(storage, m, c, offset, length);
            && (ok <==> ValidList(m, c, length))
            && (ok ==> storage' == Splice(storage, offset, Gather(m, ListOf(m, c))))
            && storage'[..offset] == storage[..offset] && storage'[offset + length..] == storage[offset + length..]
  {
    SglInExact(DecodeDesc, storage, m, c.dataAddr, 0, SglCount(c), offset, length, 0);
    SglInFrame(DecodeDesc, storage, m, c.dataAddr, 0, SglCount(c), offset, length, 0);
  }

  // ----- read commands

  predicate Apart(a: int, n: nat, b: int, k: nat) {
    a + n <= b || b + k <= a
  }

  /** Segments from entry `i` on overlap neither each other nor any descriptor of the list. */
  ghost predicate Separate(segs: seq<Segment>, list: int, count: nat) {
    && (forall j, k :: 0 <= j < k < |segs| ==> Apart(segs[j].addr, segs[j].length, segs[k].addr, segs[k].length))
    && (forall j, k :: 0 <= j < |segs| && 0 <= k < count ==> Apart(segs[j].addr, segs[j].length, DescAddr(list, k), 16))
  }

  ghost predicate SameOutside(m: Memory, m': Memory, segs: seq<Segment>) {
    forall a :: (forall s :: s in segs ==> !(s.addr <= a < s.addr + s.length)) ==> m'(a) == m(a)
  }

  lemma DescKept(decode: Decoder, m: Memory, addr: int, bytes: seq<Byte>, list: int, k: nat)
    requires Apart(addr, |bytes|, DescAddr(list, k), 16)
    ensures DescAt(decode, WriteMem(m, addr, bytes), list, k) == DescAt(decode, m, list, k)
  {
    var a := DescAddr(list, k);
    assert ReadMem(WriteMem(m, addr, bytes), a, 16) == ReadMem(m, a, 16);
  }

  lemma {:induction false} SegmentsKept(decode: Decoder, m: Memory, addr: int, bytes: seq<Byte>, list: int, i: nat, count: nat)
    requires i <= count && forall k :: i <= k < count ==> Apart(addr, |bytes|, DescAddr(list, k), 16)
    ensures Segments(decode, WriteMem(m, addr, bytes), list, i, count) == Segments(decode, m, list, i, count)
    decreases count - i
  {
    if i < count {
      DescKept(decode, m, addr, bytes, list, i);
      SegmentsKept(decode, m, addr, bytes, list, i + 1, count);
    }
  }

  lemma SeparateTail(segs: seq<Segment>, list: int, count: nat)
    requires segs != [] && Separate(segs, list, count)
    ensures Separate(segs[1..], list, count)
  {
    var tail := segs[1..];
    assert forall j :: 0 <= j < |tail| ==> tail[j] == segs[j + 1];
  }

  /** The bytes a read leaves in its segments, given what it left in the later ones. */
  lemma GatherStep(m: Memory, m': Memory, segs: seq<Segment>, bytes: seq<Byte>, list: int, count: nat)
    requires segs != [] && Separate(segs, list, count) && |bytes| == segs[0].length
    requires SameOutside(WriteMem(m, segs[0].addr, bytes), m', segs[1..])
    ensures ReadMem(m', segs[0].addr, segs[0].length) == bytes && SameOutside(m, m', segs)
  {
    var m1, seg := WriteMem(m, segs[0].addr, bytes), segs[0];
    forall i | 0 <= i < seg.length
      ensures m'(seg.addr + i) == bytes[i]
    {
      OnlyInFirst(segs, list, count, seg.addr + i);
    }
    forall a | forall s :: s in segs ==> !(s.addr <= a < s.addr + s.length)
      ensures m'(a) == m(a)
    {
      assert seg in segs;
      assert forall s :: s in segs[1..] ==> s in segs;
    }
  }

  /** An address inside the first segment lies in no other. */
  lemma OnlyInFirst(segs: seq<Segment>, list: int, count: nat, a: int)
    requires segs != [] && Separate(segs, list, count) && segs[0].addr <= a < segs[0].addr + segs[0].length
    ensures forall s :: s in segs[1..] ==> !(s.addr <= a < s.addr + s.length)
  {
    forall s | s in segs[1..]
      ensures !(s.addr <= a < s.addr + s.length)
    {
      var k :| 0 <= k < |segs[1..]| && segs[1..][k] == s;
      assert segs[k + 1] == s;
    }
  }

  /** A descriptor the walk rejects makes the list as a whole invalid for the bytes left. */
  lemma BadSegment(segs: seq<Segment>, left: nat)
    requires segs != [] && (segs[0].addr == 0 || segs[0].length == 0 || segs[0].length > left)
    ensures !(Usable(segs) && Total(segs) == left)
  {
    assert segs[0] in segs;
  }

  ghost predicate OutExact(storage: seq<Byte>, m: Memory, segs: seq<Segment>, m': Memory, ok: bool, lo: nat, hi: nat)
    requires lo <= hi <= |storage|
  {
    && (ok <==> Usable(segs) && Total(segs) == hi - lo)
    && SameOutside(m, m', segs)
    && (ok ==> Gather(m', segs) == storage[lo..hi])
  }

  lemma SglOutAccept(storage: seq<Byte>, m: Memory, m': Memory, ok: bool, segs: seq<Segment>, list: int, count: nat, lo: nat, hi: nat)
    requires segs != [] && Separate(segs, list, count) && segs[0].addr != 0 && segs[0].length != 0
    requires lo + segs[0].length <= hi <= |storage|
    requires OutExact(storage, WriteMem(m, segs[0].addr, storage[lo..lo + segs[0].length]), segs[1..], m', ok, lo + segs[0].length, hi)
    ensures OutExact(storage, m, segs, m', ok, lo, hi)
  {
    var bytes := storage[lo..lo + segs[0].length];
    GatherStep(m, m', segs, bytes, list, count);
    AcceptCounts(segs, hi - lo);
    if ok { AcceptGathers(storage, m', segs, lo, hi); }
  }

  lemma AcceptCounts(segs: seq<Segment>, left: nat)
    requires segs != [] && segs[0].addr != 0 && 0 < segs[0].length <= left
    ensures Usable(segs) && Total(segs) == left <==> Usable(segs[1..]) && Total(segs[1..]) == left - segs[0].length
  {
    UsableSplit(segs);
  }

  lemma AcceptGathers(storage: seq<Byte>, m': Memory, segs: seq<Segment>, lo: nat, hi: nat)
    requires segs != [] && lo + segs[0].length <= hi <= |storage|
    requires ReadMem(m', segs[0].addr, segs[0].length) == storage[lo..lo + segs[0].length]
    requires Gather(m', segs[1..]) == storage[lo + segs[0].length..hi]
    ensures Gather(m', segs) == storage[lo..hi]
  {
    SliceSplit(storage, lo, lo + segs[0].length, hi);
  }

  lemma SliceSplit(q: seq<Byte>, lo: nat, mid: nat, hi: nat)
    requires lo <= mid <= hi <= |q|
    ensures q[lo..hi] == q[lo..mid] + q[mid..hi]
  {
  }

  lemma SglOutStop(storage: seq<Byte>, m: Memory, segs: seq<Segment>, ok: bool, lo: nat, hi: nat)
    requires lo <= hi <= |storage|
    requires if segs == [] then ok == (lo == hi) else !ok && !(Usable(segs) && Total(segs) == hi - lo)
    ensures OutExact(storage, m, segs, m, ok, lo, hi)
  {
  }

  /** The descriptors still to be fetched are not touched by the segment written. */
  lemma NextSegments(decode: Decoder, m: Memory, bytes: seq<Byte>, list: int, i: nat, count: nat)
    requires i < count && |bytes| == DescAt(decode, m, list, i).length && Separate(Segments(decode, m, list, i, count), list, count)
    ensures var m1 := WriteMem(m, DescAt(decode, m, list, i).addr, bytes);
            && Segments(decode, m1, list, i + 1, count) == Segments(decode, m, list, i, count)[1..]
            && Separate(Segments(decode, m1, list, i + 1, count), list, count)
  {
    var segs, seg := Segments(decode, m, list, i, count), DescAt(decode, m, list, i);
    assert segs[0] == seg && segs[1..] == Segments(decode, m, list, i + 1, count);
    SegmentsKept(decode, m, seg.addr, bytes, list, i + 1, count);
    SeparateTail(segs, list, count);
  }

  /** The walk over a list fetched beforehand. */
  function OutWalk(storage: seq<Byte>, m: Memory, segs: seq<Segment>, lo: nat, hi: nat): (Memory, bool)
    requires lo <= hi <= |storage|
    decreases |segs|
  {
    if segs == [] then (m, lo == hi)
    else if segs[0].addr == 0 || segs[0].length == 0 || segs[0].length > hi - lo then (m, false)
    else OutWalk(storage, WriteMem(m, segs[0].addr, storage[lo..lo + segs[0].length]), segs[1..], lo + segs[0].length, hi)
  }

  lemma {:induction false} OutWalkExact(storage: seq<Byte>, m: Memory, segs: seq<Segment>, list: int, count: nat, lo: nat, hi: nat)
    requires lo <= hi <= |storage| && Separate(segs, list, count)
    ensures OutExact(storage, m, segs, OutWalk(storage, m, segs, lo, hi).0, OutWalk(storage, m, segs, lo, hi).1, lo, hi)
    decreases |segs|
  {
    if segs == [] {
      SglOutStop(storage, m, segs, lo == hi, lo, hi);
    } else if segs[0].addr == 0 || segs[0].length == 0 || segs[0].length > hi - lo {
      BadSegment(segs, hi - lo);
      SglOutStop(storage, m, segs, false, lo, hi);
    } else {
      var n := segs[0].length;
      var m1 := WriteMem(m, segs[0].addr, storage[lo..lo + n]);
      SeparateTail(segs, list, count);
      OutWalkExact(storage, m1, segs[1..], list, count, lo + n, hi);
      var (m', ok) := OutWalk(storage, m1, segs[1..], lo + n, hi);
      SglOutAccept(storage, m, m', ok, segs, list, count, lo, hi);
    }
  }

  /** Fetching descriptors on the way sees the same list as fetching them beforehand. */
  lemma {:induction false} SglOutIsWalk(decode: Decoder, storage: seq<Byte>, m: Memory, list: int, i: nat, count: nat, offset: nat, length: nat, done: nat)
    requires i <= count && done <= length && offset + length <= |storage|
    requires Separate(Segments(decode, m, list, i, count), list, count)
    ensures SglOut(decode, storage, m, list, i, count, offset, length, done)
              == OutWalk(storage, m, Segments(decode, m, list, i, count), offset + done, offset + length)
    decreases count - i
  {
    if i < count {
      var seg := DescAt(decode, m, list, i);
      if seg.addr != 0 && seg.length != 0 && seg.length <= length - done {
        var bytes := storage[offset + done..offset + done + seg.length];
        NextSegments(decode, m, bytes, list, i, count);
        SglOutIsWalk(decode, storage, WriteMem(m, seg.addr, bytes), list, i + 1, count, offset, length, done + seg.length);
      }
    }
  }

  lemma TransferIsWalk(storage: seq<Byte>, m: Memory, c: Command, offset: nat, length: nat)
    requires offset + length <= |storage| && c.Sgl()
    requires Separate(ListOf(m, c), c.dataAddr, SglCount(c))
    ensures TransferOut(storage, m, c, offset, length) ==
              if CountOk(c) then OutWalk(storage, m, ListOf(m, c), offset, offset + length) else (m, false)
  {
    SglOutIsWalk(DecodeDesc, storage, m, c.dataAddr, 0, SglCount(c), offset, length, 0);
  }

  /** A read through a list separate from itself and its descriptors succeeds exactly for valid
      lists; the segments then hold the stored range in order and no other memory changes. */
  lemma ReadThroughList(storage: seq<Byte>, m: Memory, c: Command, offset: nat, length: nat)
    requires offset + length <= |storage| && c.Sgl()
    requires Separate(ListOf(m, c), c.dataAddr, SglCount(c))
    ensures var segs := ListOf(m, c);
            var (m', ok) := TransferOut(storage, m, c, offset, length);
            && (ok <==> ValidList(m, c, length))
            && SameOutside(m, m', segs)
            && (ok ==> Gather(m', segs) == storage[offset..offset + length])
  {
    var segs := ListOf(m, c);
    TransferIsWalk(storage, m, c, offset, length);
    OutWalkExact(storage, m, segs, c.dataAddr, SglCount(c), offset, offset + length);
  }

  /** What was written through one list is read back through any other. */
  lemma ListRoundTrip(storage: seq<Byte>, m: Memory, w: Command, m2: Memory, r: Command, offset: nat, length: nat)
    requires offset + length <= |storage| && w.Sgl() && r.Sgl()
    requires ValidList(m, w, length) && ValidList(m2, r, length)
    requires Separate(ListOf(m2, r), r.dataAddr, SglCount(r))
    ensures var stored := TransferIn(storage, m, w, offset, length).0;
            Gather(TransferOut(stored, m2, r, offset, length).0, ListOf(m2, r))
              == Gather(m, ListOf(m, w))
  {
    WriteThroughList(storage, m, w, offset, length);
    var stored := TransferIn(storage, m, w, offset, length).0;
    ReadThroughList(stored, m2, r, offset, length);
  }
}
