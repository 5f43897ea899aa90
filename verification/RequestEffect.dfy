/** From the block layer to the bytes: what the QEMU device does with the command openflash_queue_rq
    publishes for a request, in terms of the request alone. */
module RequestEffect {
  import opened Common
  import opened Abi
  import opened QemuSpec
  import opened QemuTransfer
  import opened QemuExecute
  import Ring
  import HostProtocol
  import opened IoDriver
  import ResetRecovery

  const SECTOR_SIZE := 512
  const SECTOR_LIMIT := 0x80_0000_0000_0000

  // ----- the descriptor on the wire

  /** The fields of the 64-byte command; those a descriptor does not set are zero. */
  function Wire(c: Ring.Command): Command {
    match c.body
    case Io(opcode, flags, lba, nblocks, control, dataAddr) => Command(opcode, flags, c.cid, lba, nblocks, control, dataAddr, 0, 0)
    case Identify => Command(OP_IDENTIFY, 0, c.cid, 0, 0, 0, 0, 0, 0)
    case CreateQueue(qid, vector, depth, sqAddr, cqAddr) =>
      Command(OP_CREATE_IOQ, 0, c.cid, 0, depth, vector * 0x1_0000 + qid, sqAddr, cqAddr, 0)
  }

  /** The command published for an accepted request. */
  function Published(rq: BlockRequest, tag: nat, list: int): Command {
    Wire(Ring.Command(tag + 1, BodyOf(rq, list, Mappable(rq))))
  }

  // ----- the segment list in memory

  /** `n` bytes of `v`, lowest first. */
  function LeBytes(v: nat, n: nat): (bytes: seq<Byte>)
    ensures |bytes| == n
  {
    if n == 0 then [] else [v % 256] + LeBytes(v / 256, n - 1)
  }

  function Pow256(n: nat): nat {
    if n == 0 then 1 else 256 * Pow256(n - 1)
  }

  lemma {:induction false} LeRoundTrip(v: nat, n: nat)
    requires v < Pow256(n)
    ensures LittleEndian(LeBytes(v, n)) == v
  {
    if n > 0 {
      LeRoundTrip(v / 256, n - 1);
      assert LeBytes(v, n)[1..] == LeBytes(v / 256, n - 1);
    }
  }

  /** A segment within the widths of a descriptor's fields. */
  predicate Encodable(s: HostProtocol.Segment) {
    0 <= s.addr < ADDRESS_SPACE && 0 <= s.length < 0x1_0000_0000
  }

  predicate AllEncodable(segs: seq<HostProtocol.Segment>) {
    forall i :: 0 <= i < |segs| ==> Encodable(segs[i])
  }

  /** The 16 bytes the driver stores for a segment. */
  function EncodeDesc(s: HostProtocol.Segment): (bytes: seq<Byte>)
    requires Encodable(s)
    ensures |bytes| == 16
  {
    LeBytes(s.addr, 8) + LeBytes(s.length, 4) + [0, 0, 0, 0]
  }

  /** The device reads back the segment the driver stored. */
  lemma DescRoundTrip(s: HostProtocol.Segment)
    requires Encodable(s)
    ensures DecodeDesc(EncodeDesc(s)) == Segment(s.addr, s.length)
  {
    assert Pow256(4) == 0x1_0000_0000;
    assert Pow256(8) == 0x1_0000_0000 * 0x1_0000_0000;
    LeRoundTrip(s.addr, 8);
    LeRoundTrip(s.length, 4);
    var bytes := EncodeDesc(s);
    assert bytes[..8] == LeBytes(s.addr, 8) && bytes[8..12] == LeBytes(s.length, 4);
  }

  /** The segments as the device names them. */
  function Parts(segs: seq<HostProtocol.Segment>): (parts: seq<Segment>)
    requires AllEncodable(segs)
    ensures |parts| == |segs| && forall i :: 0 <= i < |segs| ==> parts[i] == Segment(segs[i].addr, segs[i].length)
  {
    seq(|segs|, i requires 0 <= i < |segs| => Segment(segs[i].addr, segs[i].length))
  }

  /** Memory holds the list the driver wrote for the segments. */
  ghost predicate ListHeld(m: Memory, list: int, segs: seq<HostProtocol.Segment>)
    requires AllEncodable(segs)
  {
    forall i :: 0 <= i < |segs| ==> ReadMem(m, DescAddr(list, i), 16) == EncodeDesc(segs[i])
  }

  lemma {:induction false} ListSeen(m: Memory, list: int, segs: seq<HostProtocol.Segment>, i: nat)
    requires AllEncodable(segs) && ListHeld(m, list, segs) && i <= |segs|
    ensures Segments(DecodeDesc, m, list, i, |segs|) == Parts(segs)[i..]
    decreases |segs| - i
  {
    if i < |segs| {
      ListSeen(m, list, segs, i + 1);
      DescRoundTrip(segs[i]);
      assert Parts(segs)[i..] == [Parts(segs)[i]] + Parts(segs)[i + 1..];
    }
  }

  // ----- requests

  /** First byte of a request; a 64-bit byte offset wraps. */
  function Start(rq: BlockRequest): nat {
    rq.pos % SECTOR_LIMIT * SECTOR_SIZE
  }

  predicate Fits(q: Qemu, rq: BlockRequest) {
    Start(rq) + rq.bytes <= |q.storage|
  }

  /** The segments are exactly the bytes of the request and the device can reach them. */
  predicate Whole(rq: BlockRequest, list: int)
    requires AllEncodable(rq.segs)
  {
    list != 0 && Usable(Parts(rq.segs)) && Total(Parts(rq.segs)) == rq.bytes
  }

  /** A block address only counts up to the 64-bit offset it stands for. */
  lemma LbaWraps(q: Qemu, c: Command, m: Memory, writable: bool)
    requires c.lba >= 0 && c.nblocks >= 0
    ensures Execute(q, c, m, writable) == Execute(q, c.(lba := c.lba % LBA_LIMIT), m, writable)
  {
    var d := c.(lba := c.lba % LBA_LIMIT);
    assert c.lba * BLOCK_SIZE % ADDRESS_SPACE == d.lba * BLOCK_SIZE % ADDRESS_SPACE;
    assert c.Sgl() == d.Sgl() && c.Fua() == d.Fua() && SglCount(c) == SglCount(d) && CountOk(c) == CountOk(d);
  }

  /** The published command with its block address wrapped. */
  function Wrapped(rq: BlockRequest, tag: nat, list: int): Command {
    var c := Published(rq, tag, list);
    c.(lba := c.lba % LBA_LIMIT)
  }

  /** Where the published command points, for an aligned request. */
  lemma Placed(q: Qemu, rq: BlockRequest, tag: nat, list: int)
    requires rq.pos % SECTORS_PER_BLOCK == 0 && rq.bytes % BLOCK_SIZE == 0
    ensures var c := Wrapped(rq, tag, list);
            && Addressable(c) && Lo(c) == Start(rq) && Hi(c) == Start(rq) + rq.bytes && c.nblocks * BLOCK_SIZE == rq.bytes
            && (rq.bytes > 0 ==> (InRange(q, c) <==> Fits(q, rq)))
  {
    var p := rq.pos / SECTORS_PER_BLOCK;
    assert rq.pos == 8 * p && rq.pos % SECTOR_LIMIT == 8 * (p % LBA_LIMIT);
  }

  /** How the published command names its list. */
  lemma Named(rq: BlockRequest, tag: nat, list: int)
    requires CarriesData(rq.op) && 0 < |rq.segs| <= HostProtocol.MAX_SGL
    ensures var c := Wrapped(rq, tag, list);
            c.Sgl() && !c.Fua() && SglCount(c) == |rq.segs| && c.dataAddr == list && (CountOk(c) <==> list != 0)
  {
  }

  /** The device finds the request's segments in the list, and they are valid exactly if whole. */
  lemma Listed(m: Memory, rq: BlockRequest, tag: nat, list: int)
    requires CarriesData(rq.op) && AllEncodable(rq.segs) && 0 < |rq.segs| <= HostProtocol.MAX_SGL && ListHeld(m, list, rq.segs)
    ensures var c := Wrapped(rq, tag, list);
            && c.Sgl() && !c.Fua() && SglCount(c) == |rq.segs| && c.dataAddr == list && ListOf(m, c) == Parts(rq.segs)
            && (ValidList(m, c, rq.bytes) <==> Whole(rq, list))
  {
    Named(rq, tag, list);
    var c, parts := Wrapped(rq, tag, list), Parts(rq.segs);
    assert ListOf(m, c) == parts by {
      ListSeen(m, list, rq.segs, 0);
      assert parts[0..] == parts;
    }
  }

  /** Accepted data requests without segments cannot succeed. */
  lemma Unlisted(q: Qemu, rq: BlockRequest, tag: nat, list: int, m: Memory, writable: bool)
    requires CarriesData(rq.op) && rq.segs == [] && rq.pos % SECTORS_PER_BLOCK == 0 && rq.bytes % BLOCK_SIZE == 0 && rq.bytes > 0
    ensures Execute(q, Published(rq, tag, list), m, writable) == Effect(q, m, if Fits(q, rq) then InvalidField else LbaRange, 0)
  {
    var c := Wrapped(rq, tag, list);
    LbaWraps(q, Published(rq, tag, list), m, writable);
    Placed(q, rq, tag, list);
    if Fits(q, rq) {
      NullBuffer(q, c, m, writable);
    } else {
      OutOfRange(q, c, m, writable);
    }
  }

  // ----- what an accepted request does

  /** Requests openflash_queue_rq can accept. */
  predicate Acceptable(rq: BlockRequest) {
    && rq.pos % SECTORS_PER_BLOCK == 0 && rq.bytes % BLOCK_SIZE == 0 && !rq.op.Other? && (rq.fua ==> rq.op.Write?)
    && (CarriesData(rq.op) ==> rq.bytes != 0 && |rq.segs| <= HostProtocol.MAX_SGL)
  }

  /** It accepts them exactly with a free tag below the queue's depth, every segment mapped and FUA
      only if the controller has it. */
  lemma AcceptedIff(rq: BlockRequest, tag: nat, depth: nat, owned: bool, fails: nat -> bool, canFua: bool)
    ensures Verdict(rq, tag, depth, owned, fails, canFua) == HostProtocol.StsOk <==>
              && Acceptable(rq) && tag + 1 < depth && !owned && (rq.fua ==> canFua)
              && (CarriesData(rq.op) ==> forall i :: 0 <= i < |rq.segs| ==> !fails(i))
  {
  }

  /** A read: the device keeps its state and no memory outside the segments changes. Exactly if the
      range exists and the segments are whole it succeeds, and the segments then hold the stored bytes
      of the request in order. */
  lemma ReadServed(q: Qemu, rq: BlockRequest, tag: nat, list: int, m: Memory, writable: bool)
    requires Acceptable(rq) && rq.op.Read?
    requires AllEncodable(rq.segs) && ListHeld(m, list, rq.segs) && Separate(Parts(rq.segs), list, |rq.segs|)
    ensures var e := Execute(q, Published(rq, tag, list), m, writable);
            && e.dev == q && SameOutside(m, e.mem, Parts(rq.segs))
            && e.status == (if !Fits(q, rq) then LbaRange else if Whole(rq, list) then Success else InvalidField)
            && e.result == (if e.status == Success then rq.bytes / BLOCK_SIZE else 0)
            && (e.status == Success ==> Gather(e.mem, Parts(rq.segs)) == q.storage[Start(rq)..Start(rq) + rq.bytes])
  {
    if rq.segs == [] {
      Unlisted(q, rq, tag, list, m, writable);
    } else {
      var c := Wrapped(rq, tag, list);
      LbaWraps(q, Published(rq, tag, list), m, writable);
      Placed(q, rq, tag, list);
      Listed(m, rq, tag, list);
      if Fits(q, rq) {
        SglReadExact(q, c, m, writable);
      } else {
        OutOfRange(q, c, m, writable);
      }
    }
  }

  /** A write, FUA or not: memory and the backing file stay as they are. Exactly if the range exists
      and the segments are whole it succeeds, and storage then holds the segments' bytes at the
      position of the request; no byte outside the range changes in any case. */
  lemma WriteServed(q: Qemu, rq: BlockRequest, tag: nat, list: int, m: Memory, writable: bool)
    requires Acceptable(rq) && rq.op.Write?
    requires AllEncodable(rq.segs) && ListHeld(m, list, rq.segs)
    ensures var e := Execute(q, Published(rq, tag, list), m, writable);
            && e.mem == m && e.dev == q.(storage := e.dev.storage)
            && e.status == (if !Fits(q, rq) then LbaRange else if Whole(rq, list) then Success else InvalidField)
            && e.result == (if e.status == Success then rq.bytes / BLOCK_SIZE else 0)
            && (e.status == Success ==> Replaces(q.storage, e.dev.storage, Start(rq), Gather(m, Parts(rq.segs))))
            && (if Fits(q, rq) then
                  && |e.dev.storage| == |q.storage| && e.dev.storage[..Start(rq)] == q.storage[..Start(rq)]
                  && e.dev.storage[Start(rq) + rq.bytes..] == q.storage[Start(rq) + rq.bytes..]
                else e.dev == q)
  {
    if rq.segs == [] {
      Unlisted(q, rq, tag, list, m, writable);
    } else {
      var c := Wrapped(rq, tag, list);
      LbaWraps(q, Published(rq, tag, list), m, writable);
      Placed(q, rq, tag, list);
      Listed(m, rq, tag, list);
      if Fits(q, rq) {
        SglWriteExact(q, c, m, writable);
      } else {
        OutOfRange(q, c, m, writable);
      }
    }
  }

  /** A flush: everything stored so far is in the backing file when it succeeds, and it fails only if
      that file cannot be written. */
  lemma FlushServed(q: Qemu, rq: BlockRequest, tag: nat, list: int, m: Memory, writable: bool)
    requires Acceptable(rq) && rq.op.FlushCache?
    ensures var e := Execute(q, Published(rq, tag, list), m, writable);
            && e.mem == m && e.dev == q.(image := e.dev.image) && e.result == 0
            && e.status == (if q.backed && !writable then Internal else Success)
            && e.dev.image == (if q.backed && writable then Some(q.storage) else q.image)
  {
    Placed(q, rq, tag, list);
  }

  /** A discard: zeroes exactly its range, if there is one. */
  lemma DiscardServed(q: Qemu, rq: BlockRequest, tag: nat, list: int, m: Memory, writable: bool)
    requires Acceptable(rq) && rq.op.Discard?
    ensures var e := Execute(q, Published(rq, tag, list), m, writable);
            && e.mem == m && e.dev == q.(storage := e.dev.storage)
            && e.status == (if rq.bytes == 0 then InvalidField else if Fits(q, rq) then Success else LbaRange)
            && e.result == (if e.status == Success then rq.bytes / BLOCK_SIZE else 0)
            && (if e.status == Success then Replaces(q.storage, e.dev.storage, Start(rq), seq(rq.bytes, _ => 0)) else e.dev == q)
  {
    var c := Wrapped(rq, tag, list);
    LbaWraps(q, Published(rq, tag, list), m, writable);
    Placed(q, rq, tag, list);
    if rq.bytes > 0 && Fits(q, rq) {
      DiscardExact(q, c, m, writable);
    } else {
      OutOfRange(q, c, m, writable);
    }
  }

  /** Setting the list replaces the flags, so the FUA bit reaches the device exactly from a request
      without segments, and such a write fails: no FUA write that succeeds is saved by its command. */
  lemma FuaLost(q: Qemu, rq: BlockRequest, tag: nat, list: int, m: Memory, writable: bool)
    requires Acceptable(rq) && rq.fua
    requires AllEncodable(rq.segs) && ListHeld(m, list, rq.segs)
    ensures var e := Execute(q, Published(rq, tag, list), m, writable);
            && (Published(rq, tag, list).Fua() <==> rq.segs == [])
            && (Published(rq, tag, list).Fua() ==> e.status != Success)
            && e.dev.image == q.image
  {
    WriteServed(q, rq, tag, list, m, writable);
  }

  function Code(status: Status): int {
    match status
    case Success => 0
    case InvalidOpcode => 1
    case InvalidField => 2
    case LbaRange => 3
    case MediaError => 4
    case EccUncorrectable => 5
    case Aborted => 6
    case Internal => 7
  }

  /** What the block layer hears of an accepted request if its command is answered: success exactly if
      the range exists and the device can move, zero or save what the request asks for. */
  lemma RequestReported(q: Qemu, rq: BlockRequest, tag: nat, list: int, m: Memory, writable: bool)
    requires Acceptable(rq) && AllEncodable(rq.segs) && ListHeld(m, list, rq.segs)
    requires rq.op.Read? ==> Separate(Parts(rq.segs), list, |rq.segs|)
    ensures HostProtocol.BlkStatusOf(Code(Execute(q, Published(rq, tag, list), m, writable).status)) ==
              if rq.op.FlushCache? then if q.backed && !writable then HostProtocol.StsIoErr else HostProtocol.StsOk
              else if rq.op.Discard? && rq.bytes == 0 then HostProtocol.StsNotSupp
              else if !Fits(q, rq) then HostProtocol.StsTarget
              else if CarriesData(rq.op) && !Whole(rq, list) then HostProtocol.StsNotSupp
              else HostProtocol.StsOk
  {
    match rq.op
    case Read => ReadServed(q, rq, tag, list, m, writable);
    case Write => WriteServed(q, rq, tag, list, m, writable);
    case FlushCache => FlushServed(q, rq, tag, list, m, writable);
    case Discard => DiscardServed(q, rq, tag, list, m, writable);
  }

  /** A written range is still there after a flush and a power loss: a later read of the same range
      fills its segments with the bytes the write took from its own. */
  lemma FlushedSurvives(q: Qemu, w: BlockRequest, f: BlockRequest, r: BlockRequest, tags: (nat, nat, nat), lists: (int, int, int),
                        mw: Memory, mf: Memory, mr: Memory, writable: bool)
    requires Acceptable(w) && w.op.Write? && AllEncodable(w.segs) && ListHeld(mw, lists.0, w.segs)
    requires Acceptable(f) && f.op.FlushCache?
    requires Acceptable(r) && r.op.Read? && AllEncodable(r.segs) && ListHeld(mr, lists.2, r.segs) && Separate(Parts(r.segs), lists.2, |r.segs|)
    requires w.pos == r.pos && w.bytes == r.bytes
    ensures var write := Execute(q, Published(w, tags.0, lists.0), mw, writable);
            var flush := Execute(write.dev, Published(f, tags.1, lists.1), mf, writable);
            var read := Execute(if q.backed then Restart(flush.dev) else flush.dev, Published(r, tags.2, lists.2), mr, writable);
            write.status == flush.status == read.status == Success ==> Gather(read.mem, Parts(r.segs)) == Gather(mw, Parts(w.segs))
  {
    WriteServed(q, w, tags.0, lists.0, mw, writable);
    var write := Execute(q, Published(w, tags.0, lists.0), mw, writable);
    FlushServed(write.dev, f, tags.1, lists.1, mf, writable);
    var flush := Execute(write.dev, Published(f, tags.1, lists.1), mf, writable);
    ReadServed(if q.backed then Restart(flush.dev) else flush.dev, r, tags.2, lists.2, mr, writable);
  }

  // ----- the admin commands

  /** On the admin queue's commands, and on a descriptor never written, the summary the reset
      protocol uses is what the device does. */
  lemma AdminAgrees(q: Qemu, c: Ring.Command, m: Memory, writable: bool)
    requires c.body.CreateQueue? ==> 0 <= c.body.qid < 0x1_0000 && c.body.depth >= 0
    requires c.body.Io? ==> c.body == Ring.ZERO_BODY
    ensures var e := Execute(q, Wire(c), m, writable);
            && e.mem == m && e.dev == q.(ioq := e.dev.ioq)
            && ResetRecovery.ExecuteAdmin(c.body, q.ioq, |q.storage| / BLOCK_SIZE) == (Code(e.status), e.result, e.dev.ioq)
  {
    if c.body.CreateQueue? {
      var control := Wire(c).control;
      assert control % 0x1_0000 == c.body.qid && control / 0x1_0000 == c.body.vector;
    }
  }
}
