/** Command execution of the QEMU device (qemu/hw/block/openflash.c): byte storage, guest memory,
    and the direct and scatter-gather transfers between them. */
module QemuSpec {
  import opened Common
  import opened Abi
  import opened DeviceQueue

  const ADDRESS_SPACE := 0x1_0000_0000_0000_0000
  const MAX_SGL_ENTRIES := 16
  const OP_CREATE_IOQ := 0x81

  // ----- guest memory

  /** Bytes by address. */
  type Memory = int -> Byte

  function ReadMem(m: Memory, a: int, n: nat): (bytes: seq<Byte>)
    ensures |bytes| == n
  {
    seq<Byte>(n, i => m(a + i))
  }

  function WriteMem(m: Memory, a: int, bytes: seq<Byte>): Memory {
    k => if a <= k < a + |bytes| then bytes[k - a] else m(k)
  }

  // ----- scatter-gather lists

  datatype Segment = Segment(addr: nat, length: nat)

  function DescAddr(list: int, i: nat): int {
    (list + 16 * i) % ADDRESS_SPACE
  }

  /** Reading of the 16 bytes of a descriptor. */
  type Decoder = seq<Byte> -> Segment

  /** Little-endian value of some bytes. */
  function LittleEndian(bytes: seq<Byte>): nat {
    if bytes == [] then 0 else bytes[0] + 256 * LittleEndian(bytes[1..])
  }

  /** A 64-bit address followed by a 32-bit length; the last four bytes are reserved. */
  function DecodeDesc(bytes: seq<Byte>): Segment {
    if |bytes| != 16 then Segment(0, 0) else Segment(LittleEndian(bytes[..8]), LittleEndian(bytes[8..12]))
  }

  /** The i-th descriptor of the list. */
  function DescAt(decode: Decoder, m: Memory, list: int, i: nat): Segment {
    decode(ReadMem(m, DescAddr(list, i), 16))
  }

  function Segments(decode: Decoder, m: Memory, list: int, i: nat, count: nat): (segs: seq<Segment>)
    requires i <= count
    ensures |segs| == count - i
    decreases count - i
  {
    if i == count then [] else [DescAt(decode, m, list, i)] + Segments(decode, m, list, i + 1, count)
  }

  function Total(segs: seq<Segment>): nat {
    if segs == [] then 0 else segs[0].length + Total(segs[1..])
  }

  predicate Usable(segs: seq<Segment>) {
    forall s :: s in segs ==> s.addr != 0 && s.length != 0
  }

  /** The segments' bytes, concatenated. */
  function Gather(m: Memory, segs: seq<Segment>): (bytes: seq<Byte>)
    ensures |bytes| == Total(segs)
  {
    if segs == [] then [] else ReadMem(m, segs[0].addr, segs[0].length) + Gather(m, segs[1..])
  }

  function ZeroBytes(n: nat): (bytes: seq<Byte>)
    ensures |bytes| == n
  {
    seq(n, _ => 0)
  }

  // ----- transfers

  /** `bytes` put at `offset`. */
  function Splice(storage: seq<Byte>, offset: nat, bytes: seq<Byte>): (s: seq<Byte>)
    requires offset + |bytes| <= |storage|
    ensures |s| == |storage|
  {
    storage[..offset] + bytes + storage[offset + |bytes|..]
  }

  /** The list walk of a write command from entry `i` on, with `done` of `length` bytes moved: the
      storage and whether the list fitted. */
  function SglIn(decode: Decoder, storage: seq<Byte>, m: Memory, list: int, i: nat, count: nat, offset: nat, length: nat, done: nat): (r: (seq<Byte>, bool))
    requires i <= count && done <= length && offset + length <= |storage|
    ensures |r.0| == |storage|
    decreases count - i
  {
    if i == count then (storage, done == length)
    else
      var seg := DescAt(decode, m, list, i);
      if seg.addr == 0 || seg.length == 0 || seg.length > length - done then (storage, false)
      else SglIn(decode, Splice(storage, offset + done, ReadMem(m, seg.addr, seg.length)), m, list, i + 1, count, offset, length, done + seg.length)
  }

  /** The list walk of a read command; descriptors are fetched from memory as it is by then. */
  function SglOut(decode: Decoder, storage: seq<Byte>, m: Memory, list: int, i: nat, count: nat, offset: nat, length: nat, done: nat): (Memory, bool)
    requires i <= count && done <= length && offset + length <= |storage|
    decreases count - i
  {
    if i == count then (m, done == length)
    else
      var seg := DescAt(decode, m, list, i);
      if seg.addr == 0 || seg.length == 0 || seg.length > length - done then (m, false)
      else SglOut(decode, storage, WriteMem(m, seg.addr, storage[offset + done..offset + done + seg.length]), list, i + 1, count, offset, length, done + seg.length)
  }

  function SglCount(c: Command): nat {
    c.control % 0x1_0000
  }

  predicate CountOk(c: Command) {
    0 < SglCount(c) <= MAX_SGL_ENTRIES && c.dataAddr != 0
  }

  function TransferIn(storage: seq<Byte>, m: Memory, c: Command, offset: nat, length: nat): (r: (seq<Byte>, bool))
    requires offset + length <= |storage|
    ensures |r.0| == |storage|
  {
    if !c.Sgl() then
      if c.dataAddr == 0 then (storage, false) else (Splice(storage, offset, ReadMem(m, c.dataAddr, length)), true)
    else if !CountOk(c) then (storage, false)
    else SglIn(DecodeDesc, storage, m, c.dataAddr, 0, SglCount(c), offset, length, 0)
  }

  function TransferOut(storage: seq<Byte>, m: Memory, c: Command, offset: nat, length: nat): (Memory, bool)
    requires offset + length <= |storage|
  {
    if !c.Sgl() then
      if c.dataAddr == 0 then (m, false) else (WriteMem(m, c.dataAddr, storage[offset..offset + length]), true)
    else if !CountOk(c) then (m, false)
    else SglOut(DecodeDesc, storage, m, c.dataAddr, 0, SglCount(c), offset, length, 0)
  }

  /** The scatter-gather list of a command. */
  function ListOf(m: Memory, c: Command): seq<Segment> {
    Segments(DecodeDesc, m, c.dataAddr, 0, SglCount(c))
  }

  /** Exactly the lists an SGL transfer of `length` bytes accepts. */
  predicate ValidList(m: Memory, c: Command, length: nat) {
    CountOk(c) && (var segs := ListOf(m, c); Usable(segs) && Total(segs) == length)
  }

  // ----- execution

  /** Device storage, the backing file's contents if it exists, whether one is configured, and the
      registers of the I/O queue. */
  datatype Qemu = Qemu(storage: seq<Byte>, image: Option<seq<Byte>>, backed: bool, ioq: DevQueue)

  /** Write the storage to the backing file; `writable` says whether the host file system lets it. */
  function Persist(q: Qemu, writable: bool): (Qemu, bool) {
    if !q.backed then (q, true)
    else if writable then (q.(image := Some(q.storage)), true)
    else (q, false)
  }

  datatype Effect = Effect(dev: Qemu, mem: Memory, status: Status, result: int)

  /** Queue number and interrupt vector share the control word. */
  function CreateIoq(q: Qemu, c: Command, m: Memory): Effect {
    var qid, vector := c.control % 0x1_0000, c.control / 0x1_0000;
    if Creatable(qid, vector, c.nblocks, c.dataAddr, c.metadataAddr)
    then Effect(q.(ioq := NewQueue(vector, c.nblocks, c.dataAddr, c.metadataAddr)), m, Success, qid)
    else Effect(q, m, InvalidField, 0)
  }

  /** openflash_execute; offsets are 64-bit. */
  function Execute(q: Qemu, c: Command, m: Memory, writable: bool): Effect
    requires c.lba >= 0 && c.nblocks >= 0
  {
    var offset := c.lba * BLOCK_SIZE % ADDRESS_SPACE;
    var length := c.nblocks * BLOCK_SIZE;
    var capacity := |q.storage|;
    if c.opcode == OP_IDENTIFY then Effect(q, m, Success, capacity / BLOCK_SIZE)
    else if c.opcode == OP_CREATE_IOQ then CreateIoq(q, c, m)
    else if c.opcode == OP_FLUSH then
      var (q', ok) := Persist(q, writable);
      Effect(q', m, if ok then Success else Internal, 0)
    else if c.nblocks == 0 then Effect(q, m, InvalidField, 0)
    else if offset > capacity || length > capacity - offset then Effect(q, m, LbaRange, 0)
    else if c.opcode == OP_READ then
      var (m', ok) := TransferOut(q.storage, m, c, offset, length);
      if ok then Effect(q, m', Success, c.nblocks) else Effect(q, m', InvalidField, 0)
    else if c.opcode == OP_WRITE then
      var (storage, ok) := TransferIn(q.storage, m, c, offset, length);
      var q' := q.(storage := storage);
      if !ok then Effect(q', m, InvalidField, 0)
      else if !c.Fua() then Effect(q', m, Success, c.nblocks)
      else
        var (q'', kept) := Persist(q', writable);
        if kept then Effect(q'', m, Success, c.nblocks) else Effect(q'', m, Internal, 0)
    else if c.opcode == OP_DISCARD then
      Effect(q.(storage := Splice(q.storage, offset, ZeroBytes(length))), m, Success, c.nblocks)
    else Effect(q, m, InvalidOpcode, 0)
  }

  /** Power loss and restart: storage is reloaded from the backing file, or zero without one,
      and the queue is gone. */
  function Restart(q: Qemu): Qemu {
    q.(storage := if q.backed && q.image.Some? then q.image.value else ZeroBytes(|q.storage|), ioq := ZERO_QUEUE)
  }
}
