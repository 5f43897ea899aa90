/** openflash_execute in terms of the bytes and blocks a command names: which part of the storage a
    scatter-gather command touches, what becomes durable, and which commands are refused. */
module QemuExecute {
  import opened Common
  import opened Abi
  import opened QemuSpec
  import opened QemuTransfer

  const LBA_LIMIT := 0x10_0000_0000_0000

  /** First byte of the blocks a command names, and the byte behind them. */
  function Lo(c: Command): int {
    c.lba * BLOCK_SIZE
  }

  function Hi(c: Command): int {
    (c.lba + c.nblocks) * BLOCK_SIZE
  }

  predicate Addressable(c: Command) {
    0 <= c.lba < LBA_LIMIT && 0 <= c.nblocks
  }

  predicate InRange(q: Qemu, c: Command) {
    c.nblocks > 0 && Hi(c) <= |q.storage|
  }

  /** The 64-bit offset of an addressable block does not wrap. */
  lemma RangeTest(c: Command, capacity: nat)
    requires Addressable(c)
    ensures c.lba * BLOCK_SIZE % ADDRESS_SPACE == Lo(c) && Hi(c) == Lo(c) + c.nblocks * BLOCK_SIZE
    ensures (Lo(c) > capacity || c.nblocks * BLOCK_SIZE > capacity - Lo(c)) <==> Hi(c) > capacity
  {
  }

  /** Reads, writes and discards of no blocks or beyond the end are refused and change nothing. */
  lemma OutOfRange(q: Qemu, c: Command, m: Memory, writable: bool)
    requires Addressable(c) && !InRange(q, c) && (c.opcode == OP_READ || c.opcode == OP_WRITE || c.opcode == OP_DISCARD)
    ensures Execute(q, c, m, writable) == Effect(q, m, if c.nblocks == 0 then InvalidField else LbaRange, 0)
  {
    RangeTest(c, |q.storage|);
  }

  /** A direct transfer needs a buffer address. */
  lemma NullBuffer(q: Qemu, c: Command, m: Memory, writable: bool)
    requires Addressable(c) && InRange(q, c) && (c.opcode == OP_READ || c.opcode == OP_WRITE) && !c.Sgl() && c.dataAddr == 0
    ensures Execute(q, c, m, writable) == Effect(q, m, InvalidField, 0)
  {
    RangeTest(c, |q.storage|);
  }

  /** Any other opcode than the six known ones changes nothing and is refused, for the first reason
      that applies. */
  lemma UnknownOpcode(q: Qemu, c: Command, m: Memory, writable: bool)
    requires Addressable(c) && c.opcode !in {OP_READ, OP_WRITE, OP_FLUSH, OP_DISCARD, OP_IDENTIFY, OP_CREATE_IOQ}
    ensures Execute(q, c, m, writable) ==
              Effect(q, m, if c.nblocks == 0 then InvalidField else if !InRange(q, c) then LbaRange else InvalidOpcode, 0)
  {
    RangeTest(c, |q.storage|);
  }

  /** Only queue 1 can be created, with at most 4096 entries at non-null addresses and one of the two
      interrupt vectors; it then starts empty at phase 1. */
  lemma CreateIoqExact(q: Qemu, c: Command, m: Memory, writable: bool, qid: int, vector: int)
    requires Addressable(c) && c.opcode == OP_CREATE_IOQ && c.control == vector * 0x1_0000 + qid && 0 <= qid < 0x1_0000
    ensures var e := Execute(q, c, m, writable);
            if qid == 1 && vector <= 1 && 1 <= c.nblocks <= 4096 && c.dataAddr != 0 && c.metadataAddr != 0 then
              && e == Effect(q.(ioq := e.dev.ioq), m, Success, 1)
              && e.dev.ioq.sqAddr == c.dataAddr && e.dev.ioq.cqAddr == c.metadataAddr && e.dev.ioq.depth == c.nblocks
              && e.dev.ioq.sqHead == e.dev.ioq.cqTail == e.dev.ioq.cqHead == 0 && e.dev.ioq.phase == 1
              && e.dev.ioq.vector == vector && e.dev.ioq.enabled
            else e == Effect(q, m, InvalidField, 0)
  {
    assert c.control % 0x1_0000 == qid && c.control / 0x1_0000 == vector;
  }

  // ----- scatter-gather

  lemma WriteInRange(q: Qemu, c: Command, m: Memory, writable: bool)
    requires Addressable(c) && InRange(q, c) && c.opcode == OP_WRITE
    ensures var (storage, ok) := TransferIn(q.storage, m, c, Lo(c), c.nblocks * BLOCK_SIZE);
            var kept := !c.Fua() || !q.backed || writable;
            Execute(q, c, m, writable) ==
              Effect(q.(storage := storage, image := if ok && c.Fua() && q.backed && writable then Some(storage) else q.image), m,
                     if !ok then InvalidField else if kept then Success else Internal, if ok && kept then c.nblocks else 0)
  {
    RangeTest(c, |q.storage|);
  }

  lemma ReadInRange(q: Qemu, c: Command, m: Memory, writable: bool)
    requires Addressable(c) && InRange(q, c) && c.opcode == OP_READ
    ensures var (m', ok) := TransferOut(q.storage, m, c, Lo(c), c.nblocks * BLOCK_SIZE);
            Execute(q, c, m, writable) == Effect(q, m', if ok then Success else InvalidField, if ok then c.nblocks else 0)
  {
    RangeTest(c, |q.storage|);
  }

  /** `after` is `before` with `bytes` as the bytes from `lo` on. */
  ghost predicate Replaces(before: seq<Byte>, after: seq<Byte>, lo: int, bytes: seq<Byte>) {
    && 0 <= lo && lo + |bytes| <= |before| == |after|
    && after[..lo] == before[..lo] && after[lo..lo + |bytes|] == bytes && after[lo + |bytes|..] == before[lo + |bytes|..]
  }

  lemma SpliceReplaces(storage: seq<Byte>, lo: nat, bytes: seq<Byte>)
    requires lo + |bytes| <= |storage|
    ensures Replaces(storage, Splice(storage, lo, bytes), lo, bytes)
  {
  }

  /** A write through a list with its blocks in range. A valid list: the named blocks hold the
      segments' bytes in order and nothing else changes; with FUA the image is saved too, and only then
      can the answer be Internal. Any other list: refused, and no byte outside the blocks changes. */
  lemma SglWriteExact(q: Qemu, c: Command, m: Memory, writable: bool)
    requires Addressable(c) && InRange(q, c) && c.opcode == OP_WRITE && c.Sgl()
    ensures var e := Execute(q, c, m, writable);
            && e.mem == m && e.dev.backed == q.backed && e.dev.ioq == q.ioq
            && (if ValidList(m, c, c.nblocks * BLOCK_SIZE) then
                  && Replaces(q.storage, e.dev.storage, Lo(c), Gather(m, ListOf(m, c)))
                  && (e.status, e.result) == (if c.Fua() && q.backed && !writable then (Internal, 0) else (Success, c.nblocks))
                  && e.dev.image == (if c.Fua() && q.backed && writable then Some(e.dev.storage) else q.image)
                else
                  && (e.status, e.result) == (InvalidField, 0) && e.dev.image == q.image && |e.dev.storage| == |q.storage|
                  && e.dev.storage[..Lo(c)] == q.storage[..Lo(c)] && e.dev.storage[Hi(c)..] == q.storage[Hi(c)..])
  {
    RangeTest(c, |q.storage|);
    WriteInRange(q, c, m, writable);
    WriteThroughList(q.storage, m, c, Lo(c), c.nblocks * BLOCK_SIZE);
    if ValidList(m, c, c.nblocks * BLOCK_SIZE) {
      SpliceReplaces(q.storage, Lo(c), Gather(m, ListOf(m, c)));
    }
  }

  /** A read through a list that is separate from itself and its descriptors: the device does not
      change, no memory outside the segments changes, and exactly with a valid list it succeeds and the
      segments hold the named blocks in order. */
  lemma SglReadExact(q: Qemu, c: Command, m: Memory, writable: bool)
    requires Addressable(c) && InRange(q, c) && c.opcode == OP_READ && c.Sgl() && Separate(ListOf(m, c), c.dataAddr, SglCount(c))
    ensures var e := Execute(q, c, m, writable);
            && e.dev == q && SameOutside(m, e.mem, ListOf(m, c))
            && (if ValidList(m, c, c.nblocks * BLOCK_SIZE) then
                  (e.status, e.result) == (Success, c.nblocks) && Gather(e.mem, ListOf(m, c)) == q.storage[Lo(c)..Hi(c)]
                else (e.status, e.result) == (InvalidField, 0))
  {
    RangeTest(c, |q.storage|);
    ReadInRange(q, c, m, writable);
    ReadThroughList(q.storage, m, c, Lo(c), c.nblocks * BLOCK_SIZE);
  }

  /** A discard in range zeroes the named blocks. */
  lemma DiscardExact(q: Qemu, c: Command, m: Memory, writable: bool)
    requires Addressable(c) && InRange(q, c) && c.opcode == OP_DISCARD
    ensures var e := Execute(q, c, m, writable);
            && e.mem == m && (e.status, e.result) == (Success, c.nblocks) && e.dev == q.(storage := e.dev.storage)
            && Replaces(q.storage, e.dev.storage, Lo(c), seq(c.nblocks * BLOCK_SIZE, _ => 0))
  {
    RangeTest(c, |q.storage|);
    SpliceReplaces(q.storage, Lo(c), ZeroBytes(c.nblocks * BLOCK_SIZE));
  }

  // ----- durability

  /** What reaches the backing file: everything, on a flush or a successful FUA write that can save;
      nothing otherwise. A flush or FUA write that cannot save is never reported as a success. */
  lemma DurableIffReported(q: Qemu, c: Command, m: Memory, writable: bool)
    requires Addressable(c)
    ensures var e := Execute(q, c, m, writable);
            var saving := c.opcode == OP_FLUSH || (c.opcode == OP_WRITE && c.Fua());
            && (saving && q.backed && e.status == Success ==> e.dev.image == Some(e.dev.storage))
            && (saving && q.backed && !writable ==> e.status != Success)
            && (!saving || !q.backed || e.status != Success ==> e.dev.image == q.image)
            && (c.opcode == OP_FLUSH && (writable || !q.backed) ==> e.status == Success && e.dev.storage == q.storage)
  {
    if c.opcode == OP_WRITE {
      if InRange(q, c) { WriteInRange(q, c, m, writable); } else { OutOfRange(q, c, m, writable); }
    }
  }
}
