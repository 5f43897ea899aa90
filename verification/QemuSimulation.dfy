/** The QEMU device simulates the reference device: its RAM storage is the reference device's
    current view and its backing image the stable one. */
module QemuSimulation {
  import opened Common
  import opened Abi
  import opened DeviceQueue
  import opened QemuSpec
  import opened QemuTransfer
  import opened QemuExecute
  import R = ReferenceDevice

  const NBLOCKS_LIMIT := 0x1_0000_0000

  function Offset(lba: int): int {
    lba * BLOCK_SIZE
  }

  /** The bytes are the blocks of `store`. */
  ghost predicate Lays(storage: seq<Byte>, store: int -> Block, capacity: int) {
    |storage| == Offset(capacity) && forall l :: 0 <= l < capacity ==> BlockAt(storage, l) == store(l)
  }

  function StableOf(r: R.Ref): int -> Block {
    l => R.Durable(r, l)
  }

  /** The device state matches, with a backing file configured and small enough to be addressed. */
  ghost predicate Simulates(q: Qemu, r: R.Ref) {
    && q.backed && r.fault.None? && 0 <= r.capacity < LBA_LIMIT
    && Lays(q.storage, R.CurrentOf(r), r.capacity)
    && (if q.image.Some? then Lays(q.image.value, StableOf(r), r.capacity)
        else forall l :: 0 <= l < r.capacity ==> R.Durable(r, l) == ZeroBlock())
  }

  /** The reference device's buffers are regions of guest memory, at non-null addresses and apart. */
  ghost predicate SameBuffers(dma: Dma, m: Memory) {
    && (forall a :: a in dma ==> a > 0 && ReadMem(m, a, |dma[a]|) == dma[a])
    && (forall a, b :: a in dma && b in dma && a != b ==> Apart(a, |dma[a]|, b, |dma[b]|))
  }

  /** Direct read, write, flush, discard and identify commands; a transfer in range has a buffer. */
  predicate Direct(c: Command, dma: Dma, capacity: int) {
    && c.opcode in {OP_READ, OP_WRITE, OP_FLUSH, OP_DISCARD, OP_IDENTIFY}
    && !c.Sgl() && 0 <= c.lba < LBA_LIMIT && 0 <= c.nblocks < NBLOCKS_LIMIT
    && ((c.opcode == OP_READ || c.opcode == OP_WRITE) && c.nblocks > 0 && c.lba + c.nblocks <= capacity ==>
          c.dataAddr in dma && |dma[c.dataAddr]| >= c.nblocks * BLOCK_SIZE)
  }

  // ----- blocks and bytes

  lemma SpliceBlock(storage: seq<Byte>, lba: nat, n: nat, bytes: seq<Byte>, l: nat)
    requires |bytes| == n * BLOCK_SIZE && Offset(lba) + |bytes| <= |storage| && (l + 1) * BLOCK_SIZE <= |storage|
    ensures BlockAt(Splice(storage, Offset(lba), bytes), l) ==
              if lba <= l < lba + n then BlockAt(bytes, l - lba) else BlockAt(storage, l)
  {
    SpliceSlice(storage, Offset(lba), bytes, l * BLOCK_SIZE, (l + 1) * BLOCK_SIZE);
  }

  lemma SpliceSlice(storage: seq<Byte>, offset: nat, bytes: seq<Byte>, lo: nat, hi: nat)
    requires offset + |bytes| <= |storage| && lo <= hi <= |storage|
    ensures hi <= offset || offset + |bytes| <= lo ==> Splice(storage, offset, bytes)[lo..hi] == storage[lo..hi]
    ensures offset <= lo && hi <= offset + |bytes| ==> Splice(storage, offset, bytes)[lo..hi] == bytes[lo - offset..hi - offset]
  {
    var z := Splice(storage, offset, bytes);
    assert forall k :: 0 <= k < offset ==> z[k] == storage[k];
    assert forall k :: offset <= k < offset + |bytes| ==> z[k] == bytes[k - offset];
    assert forall k :: offset + |bytes| <= k < |storage| ==> z[k] == storage[k];
  }

  lemma {:induction false} SliceIsBlocks(storage: seq<Byte>, store: int -> Block, capacity: int, lba: nat, n: nat)
    requires Lays(storage, store, capacity) && lba + n <= capacity
    ensures storage[Offset(lba)..Offset(lba + n)] == Blocks(store, lba, n)
  {
    if n > 0 {
      SliceIsBlocks(storage, store, capacity, lba, n - 1);
      SliceSplit(storage, Offset(lba), Offset(lba + n - 1), Offset(lba + n));
      assert BlockAt(storage, lba + n - 1) == store(lba + n - 1);
    }
  }

  lemma ZeroBlocks(n: nat, i: nat)
    requires i < n
    ensures BlockAt(ZeroBytes(n * BLOCK_SIZE), i) == ZeroBlock()
  {
  }

  lemma ReadPrefix(m: Memory, a: int, n: nat, k: nat)
    requires k <= n
    ensures ReadMem(m, a, k) == ReadMem(m, a, n)[..k]
  {
  }

  /** The 64-bit offset of an addressable block does not wrap, so the two range checks agree. */
  lemma SameRange(c: Command, capacity: int)
    requires 0 <= c.lba < LBA_LIMIT && 0 < c.nblocks && 0 <= capacity
    ensures c.lba * BLOCK_SIZE % ADDRESS_SPACE == Offset(c.lba)
    ensures (Offset(c.lba) > Offset(capacity) || c.nblocks * BLOCK_SIZE > Offset(capacity) - Offset(c.lba)) <==> c.lba + c.nblocks > capacity
  {
  }

  // ----- one command

  lemma FilledBuffers(dma: Dma, m: Memory, addr: int, bytes: seq<Byte>)
    requires SameBuffers(dma, m) && addr in dma && |bytes| <= |dma[addr]|
    ensures SameBuffers(dma[addr := R.Fill(dma[addr], bytes)], WriteMem(m, addr, bytes))
  {
    var dma', m' := dma[addr := R.Fill(dma[addr], bytes)], WriteMem(m, addr, bytes);
    forall a | a in dma'
      ensures a > 0 && ReadMem(m', a, |dma'[a]|) == dma'[a]
    {
      if a == addr {
        assert forall i :: 0 <= i < |dma[addr]| ==> dma[addr][i] == ReadMem(m, addr, |dma[addr]|)[i];
      } else {
        assert Apart(a, |dma[a]|, addr, |dma[addr]|);
        assert ReadMem(m', a, |dma[a]|) == ReadMem(m, a, |dma[a]|);
      }
    }
  }

  lemma StoreLays(q: Qemu, r: R.Ref, lba: nat, n: nat, buffer: seq<Byte>, bytes: seq<Byte>)
    requires Simulates(q, r) && lba + n <= r.capacity && n * BLOCK_SIZE <= |buffer| && bytes == buffer[..n * BLOCK_SIZE]
    ensures Simulates(q.(storage := Splice(q.storage, Offset(lba), bytes)), R.Store(r, lba, n, buffer))
  {
    var s, r' := Splice(q.storage, Offset(lba), bytes), R.Store(r, lba, n, buffer);
    forall l | 0 <= l < r.capacity
      ensures BlockAt(s, l) == R.View(r', l) && R.Durable(r', l) == R.Durable(r, l)
    {
      SpliceBlock(q.storage, lba, n, bytes, l);
      R.StoreView(r, lba, n, buffer, l);
      assert lba <= l < lba + n ==> BlockAt(bytes, l - lba) == BlockAt(buffer, l - lba);
    }
  }

  lemma DiscardLays(q: Qemu, r: R.Ref, lba: nat, n: nat)
    requires Simulates(q, r) && lba + n <= r.capacity
    ensures Simulates(q.(storage := Splice(q.storage, Offset(lba), ZeroBytes(n * BLOCK_SIZE))), R.Discard(r, lba, n))
  {
    var zeros := ZeroBytes(n * BLOCK_SIZE);
    var s, r' := Splice(q.storage, Offset(lba), zeros), R.Discard(r, lba, n);
    forall l | 0 <= l < r.capacity
      ensures BlockAt(s, l) == R.View(r', l) && R.Durable(r', l) == R.Durable(r, l)
    {
      SpliceBlock(q.storage, lba, n, zeros, l);
      R.DiscardView(r, lba, n, l);
      if lba <= l < lba + n { ZeroBlocks(n, l - lba); }
    }
  }

  lemma PersistLays(q: Qemu, r: R.Ref)
    requires Simulates(q, r)
    ensures Persist(q, true).1 && Simulates(Persist(q, true).0, R.Flush(r))
  {
    forall l | 0 <= l < r.capacity
      ensures BlockAt(q.storage, l) == R.View(R.Flush(r), l) == R.Durable(R.Flush(r), l)
    {
      R.FlushStores(r, l);
    }
  }

  /** Both devices answer alike and stay related. */
  ghost predicate SameEffect(e: Effect, x: R.Effect) {
    e.status == x.status && e.result == x.result && Simulates(e.dev, x.dev) && SameBuffers(x.dma, e.mem)
  }

  lemma ReadSimulates(q: Qemu, r: R.Ref, c: Command, dma: Dma, m: Memory)
    requires Simulates(q, r) && SameBuffers(dma, m) && Direct(c, dma, r.capacity) && c.opcode == OP_READ
    requires 0 < c.nblocks && c.lba + c.nblocks <= r.capacity
    ensures SameEffect(Execute(q, c, m, true), R.Dispatch(r, c, dma))
  {
    SameRange(c, r.capacity);
    SliceIsBlocks(q.storage, R.CurrentOf(r), r.capacity, c.lba, c.nblocks);
    FilledBuffers(dma, m, c.dataAddr, Blocks(R.CurrentOf(r), c.lba, c.nblocks));
    assert Offset(c.lba + c.nblocks) == Offset(c.lba) + c.nblocks * BLOCK_SIZE;
  }

  lemma WriteSimulates(q: Qemu, r: R.Ref, c: Command, dma: Dma, m: Memory)
    requires Simulates(q, r) && SameBuffers(dma, m) && Direct(c, dma, r.capacity) && c.opcode == OP_WRITE
    requires 0 < c.nblocks && c.lba + c.nblocks <= r.capacity
    ensures SameEffect(Execute(q, c, m, true), R.Dispatch(r, c, dma))
  {
    SameRange(c, r.capacity);
    var buffer, length := dma[c.dataAddr], c.nblocks * BLOCK_SIZE;
    var bytes := ReadMem(m, c.dataAddr, length);
    ReadPrefix(m, c.dataAddr, |buffer|, length);
    StoreLays(q, r, c.lba, c.nblocks, buffer, bytes);
    PersistLays(q.(storage := Splice(q.storage, Offset(c.lba), bytes)), R.Store(r, c.lba, c.nblocks, buffer));
  }

  /** A direct command with valid buffers has the same status, result and effect on both devices. */
  lemma CommandSimulates(q: Qemu, r: R.Ref, c: Command, dma: Dma, m: Memory)
    requires Simulates(q, r) && SameBuffers(dma, m) && Direct(c, dma, r.capacity)
    ensures SameEffect(Execute(q, c, m, true), R.Dispatch(r, c, dma))
  {
    if c.opcode == OP_FLUSH {
      PersistLays(q, r);
    } else if c.opcode != OP_IDENTIFY && c.nblocks > 0 {
      SameRange(c, r.capacity);
      if c.lba + c.nblocks <= r.capacity {
        if c.opcode == OP_READ {
          ReadSimulates(q, r, c, dma, m);
        } else if c.opcode == OP_WRITE {
          WriteSimulates(q, r, c, dma, m);
        } else {
          DiscardLays(q, r, c.lba, c.nblocks);
        }
      }
    }
  }

  lemma RestartSimulates(q: Qemu, r: R.Ref)
    requires Simulates(q, r)
    ensures Simulates(Restart(q), r.(overlay := map[]))
  {
    var q', r' := Restart(q), r.(overlay := map[]);
    forall l | 0 <= l < r.capacity
      ensures BlockAt(q'.storage, l) == R.View(r', l) && R.Durable(r', l) == R.Durable(r, l)
    {
      if q.image.None? {
        assert q'.storage == ZeroBytes(r.capacity * BLOCK_SIZE);
        ZeroBlocks(r.capacity, l);
        assert R.Durable(r, l) == ZeroBlock();
      } else {
        assert BlockAt(q.image.value, l) == StableOf(r)(l);
      }
      assert R.View(r', l) == R.Durable(r, l);
    }
  }

  // ----- scatter-gather commands

  /** The direct command for one buffer that holds the segments' bytes one after the other. */
  function Twin(c: Command): Command {
    c.(flags := c.flags - 2, dataAddr := 1)
  }

  function GatheredBuffer(c: Command, m: Memory): Dma {
    map[1 := Gather(m, ListOf(m, c))]
  }

  /** Reads and writes through a list; one in range has a valid list, separate if it is written to. */
  ghost predicate Listed(c: Command, m: Memory, capacity: int) {
    && (c.opcode == OP_READ || c.opcode == OP_WRITE)
    && c.Sgl() && 0 <= c.lba < LBA_LIMIT && 0 <= c.nblocks < NBLOCKS_LIMIT
    && (c.nblocks > 0 && c.lba + c.nblocks <= capacity ==> ValidList(m, c, c.nblocks * BLOCK_SIZE))
    && (c.opcode == OP_READ ==> Separate(ListOf(m, c), c.dataAddr, SglCount(c)))
  }

  /** Both devices answer alike and stay related, and the segments hold what the one buffer holds. */
  ghost predicate SameGathered(e: Effect, x: R.Effect, segs: seq<Segment>) {
    && e.status == x.status && e.result == x.result && Simulates(e.dev, x.dev)
    && 1 in x.dma && Gather(e.mem, segs) == x.dma[1]
  }

  lemma TwinFlags(c: Command)
    requires c.Sgl()
    ensures !Twin(c).Sgl() && Twin(c).Fua() == c.Fua()
  {
  }

  lemma ReplacedIsSplice(before: seq<Byte>, after: seq<Byte>, lo: nat, bytes: seq<Byte>)
    requires Replaces(before, after, lo, bytes)
    ensures after == Splice(before, lo, bytes)
  {
    assert after == after[..lo] + after[lo..lo + |bytes|] + after[lo + |bytes|..];
  }

  lemma ListedWrite(q: Qemu, r: R.Ref, c: Command, m: Memory)
    requires Simulates(q, r) && Listed(c, m, r.capacity) && c.opcode == OP_WRITE && 0 < c.nblocks && c.lba + c.nblocks <= r.capacity
    ensures SameGathered(Execute(q, c, m, true), R.Dispatch(r, Twin(c), GatheredBuffer(c, m)), ListOf(m, c))
  {
    var bytes := Gather(m, ListOf(m, c));
    TwinFlags(c);
    SglWriteExact(q, c, m, true);
    ReplacedIsSplice(q.storage, Execute(q, c, m, true).dev.storage, Lo(c), bytes);
    assert bytes[..c.nblocks * BLOCK_SIZE] == bytes;
    StoreLays(q, r, c.lba, c.nblocks, bytes, bytes);
    PersistLays(q.(storage := Splice(q.storage, Offset(c.lba), bytes)), R.Store(r, c.lba, c.nblocks, bytes));
  }

  lemma ListedRead(q: Qemu, r: R.Ref, c: Command, m: Memory)
    requires Simulates(q, r) && Listed(c, m, r.capacity) && c.opcode == OP_READ && 0 < c.nblocks && c.lba + c.nblocks <= r.capacity
    ensures SameGathered(Execute(q, c, m, true), R.Dispatch(r, Twin(c), GatheredBuffer(c, m)), ListOf(m, c))
  {
    TwinFlags(c);
    SglReadExact(q, c, m, true);
    SliceIsBlocks(q.storage, R.CurrentOf(r), r.capacity, c.lba, c.nblocks);
    var bytes := Blocks(R.CurrentOf(r), c.lba, c.nblocks);
    WholeFill(Gather(m, ListOf(m, c)), bytes);
  }

  lemma WholeFill(buffer: seq<Byte>, bytes: seq<Byte>)
    requires |buffer| == |bytes|
    ensures R.Fill(buffer, bytes) == bytes
  {
  }

  /** A command with a valid list has the same status, result and effect as the direct command on
      one buffer with the segments' bytes. */
  lemma ListedSimulates(q: Qemu, r: R.Ref, c: Command, m: Memory)
    requires Simulates(q, r) && Listed(c, m, r.capacity)
    ensures SameGathered(Execute(q, c, m, true), R.Dispatch(r, Twin(c), GatheredBuffer(c, m)), ListOf(m, c))
  {
    if c.nblocks > 0 && c.lba + c.nblocks <= r.capacity {
      if c.opcode == OP_WRITE { ListedWrite(q, r, c, m); } else { ListedRead(q, r, c, m); }
    } else {
      OutOfRange(q, c, m, true);
    }
  }

  // ----- runs

  /** A direct command with the buffers each device is given for it, a command with a list in guest
      memory, or a power loss and restart. */
  datatype Event = Cmd(command: Command, dma: Dma, mem: Memory) | ListCmd(command: Command, mem: Memory) | PowerCycle

  /** What a run shows: status, result, the buffers afterwards and, for a list, its bytes. */
  datatype Seen<B> = Seen(status: Status, result: int, buffers: B, data: seq<Byte>)

  ghost predicate Fair(events: seq<Event>, capacity: int) {
    && (forall e :: e in events && e.Cmd? ==> SameBuffers(e.dma, e.mem) && Direct(e.command, e.dma, capacity))
    && (forall e :: e in events && e.ListCmd? ==> Listed(e.command, e.mem, capacity))
  }

  /** The reference device on one event; `completed` only numbers completions. */
  function RefStep(r: R.Ref, e: Event): (R.Ref, seq<Seen<Dma>>) {
    match e
    case Cmd(c, dma, _) => (var (r', dma', x) := R.Execute(r, c, dma); (r', [Seen(x.status, x.result, dma', [])]))
    case ListCmd(c, m) =>
      var (r', dma', x) := R.Execute(r, Twin(c), GatheredBuffer(c, m));
      (r', [Seen(x.status, x.result, map[], if 1 in dma' then dma'[1] else [])])
    case PowerCycle => (R.Step(r, R.PowerLoss).0, [])
  }

  function QemuStep(q: Qemu, e: Event): (Qemu, seq<Seen<Memory>>) {
    match e
    case Cmd(c, _, m) =>
      if c.lba < 0 || c.nblocks < 0 then (q, [])
      else (var x := Execute(q, c, m, true); (x.dev, [Seen(x.status, x.result, x.mem, [])]))
    case ListCmd(c, m) =>
      if c.lba < 0 || c.nblocks < 0 then (q, [])
      else (var x := Execute(q, c, m, true); (x.dev, [Seen(x.status, x.result, x.mem, Gather(x.mem, ListOf(m, c)))]))
    case PowerCycle => (Restart(q), [])
  }

  function RefRun(r: R.Ref, events: seq<Event>): (R.Ref, seq<Seen<Dma>>)
    decreases |events|
  {
    if events == [] then (r, [])
    else
      var (r', out) := RefStep(r, events[0]);
      var (last, rest) := RefRun(r', events[1..]);
      (last, out + rest)
  }

  function QemuRun(q: Qemu, events: seq<Event>): (Qemu, seq<Seen<Memory>>)
    decreases |events|
  {
    if events == [] then (q, [])
    else
      var (q', out) := QemuStep(q, events[0]);
      var (last, rest) := QemuRun(q', events[1..]);
      (last, out + rest)
  }

  ghost predicate SameOutput(a: seq<Seen<Memory>>, b: seq<Seen<Dma>>) {
    |a| == |b| && forall i :: 0 <= i < |a| ==>
      && a[i].status == b[i].status && a[i].result == b[i].result && a[i].data == b[i].data
      && SameBuffers(b[i].buffers, a[i].buffers)
  }

  lemma CmdSimulates(q: Qemu, r: R.Ref, c: Command, dma: Dma, m: Memory)
    requires Simulates(q, r) && SameBuffers(dma, m) && Direct(c, dma, r.capacity)
    ensures var (q', a), (r', b) := QemuStep(q, Cmd(c, dma, m)), RefStep(r, Cmd(c, dma, m));
            Simulates(q', r') && r'.capacity == r.capacity && SameOutput(a, b)
  {
    CommandSimulates(q, r, c, dma, m);
    var x, y := Execute(q, c, m, true), R.Dispatch(r, c, dma);
    CountsNothing(x.dev, y.dev, r.completed + 1);
    DispatchKeepsCapacity(r, c, dma);
    OneOutput(x.status, x.result, x.mem, y.dma, []);
    StepsAre(q, r, c, dma, m, x, y);
  }

  lemma StepsAre(q: Qemu, r: R.Ref, c: Command, dma: Dma, m: Memory, x: Effect, y: R.Effect)
    requires r.fault.None? && c.lba >= 0 && c.nblocks >= 0 && x == Execute(q, c, m, true) && y == R.Dispatch(r, c, dma)
    ensures QemuStep(q, Cmd(c, dma, m)) == (x.dev, [Seen(x.status, x.result, x.mem, [])])
    ensures RefStep(r, Cmd(c, dma, m)) == (y.dev.(completed := r.completed + 1), [Seen(y.status, y.result, y.dma, [])])
  {
  }

  lemma ListCmdSimulates(q: Qemu, r: R.Ref, c: Command, m: Memory)
    requires Simulates(q, r) && Listed(c, m, r.capacity)
    ensures var (q', a), (r', b) := QemuStep(q, ListCmd(c, m)), RefStep(r, ListCmd(c, m));
            Simulates(q', r') && r'.capacity == r.capacity && SameOutput(a, b)
  {
    ListedSimulates(q, r, c, m);
    var x, y := Execute(q, c, m, true), R.Dispatch(r, Twin(c), GatheredBuffer(c, m));
    CountsNothing(x.dev, y.dev, r.completed + 1);
    DispatchKeepsCapacity(r, Twin(c), GatheredBuffer(c, m));
    OneOutput(x.status, x.result, x.mem, map[], y.dma[1]);
    ListStepsAre(q, r, c, m, x, y);
  }

  lemma ListStepsAre(q: Qemu, r: R.Ref, c: Command, m: Memory, x: Effect, y: R.Effect)
    requires r.fault.None? && c.lba >= 0 && c.nblocks >= 0 && x == Execute(q, c, m, true) && y == R.Dispatch(r, Twin(c), GatheredBuffer(c, m))
    requires 1 in y.dma
    ensures QemuStep(q, ListCmd(c, m)) == (x.dev, [Seen(x.status, x.result, x.mem, Gather(x.mem, ListOf(m, c)))])
    ensures RefStep(r, ListCmd(c, m)) == (y.dev.(completed := r.completed + 1), [Seen(y.status, y.result, map[], y.dma[1])])
  {
  }

  lemma DispatchKeepsCapacity(r: R.Ref, c: Command, dma: Dma)
    ensures R.Dispatch(r, c, dma).dev.capacity == r.capacity
  {
  }

  lemma OneOutput(status: Status, result: int, m: Memory, dma: Dma, data: seq<Byte>)
    requires SameBuffers(dma, m)
    ensures SameOutput([Seen(status, result, m, data)], [Seen(status, result, dma, data)])
  {
  }

  lemma StepSimulates(q: Qemu, r: R.Ref, e: Event)
    requires Simulates(q, r) && Fair([e], r.capacity)
    ensures var (q', a), (r', b) := QemuStep(q, e), RefStep(r, e);
            Simulates(q', r') && r'.capacity == r.capacity && SameOutput(a, b)
  {
    assert e in [e];
    if e.Cmd? {
      CmdSimulates(q, r, e.command, e.dma, e.mem);
    } else if e.ListCmd? {
      ListCmdSimulates(q, r, e.command, e.mem);
    } else {
      RestartSimulates(q, r);
    }
  }

  /** The completion counter is not part of what is simulated. */
  lemma CountsNothing(q: Qemu, r: R.Ref, n: nat)
    requires Simulates(q, r)
    ensures Simulates(q, r.(completed := n))
  {
    forall l ensures R.View(r.(completed := n), l) == R.View(r, l) && R.Durable(r.(completed := n), l) == R.Durable(r, l) {}
  }

  /** For every sequence of direct commands with valid buffers, commands with valid lists and power
      losses, the QEMU device answers as the reference device does, its storage stays the current view and its backing
      image the stable one. */
  lemma {:induction false} RunSimulates(q: Qemu, r: R.Ref, events: seq<Event>)
    requires Simulates(q, r) && Fair(events, r.capacity)
    ensures Simulates(QemuRun(q, events).0, RefRun(r, events).0) && SameOutput(QemuRun(q, events).1, RefRun(r, events).1)
    decreases |events|
  {
    if events != [] {
      assert events[0] in events;
      StepSimulates(q, r, events[0]);
      RunSimulates(QemuStep(q, events[0]).0, RefStep(r, events[0]).0, events[1..]);
    }
  }

  /** A zeroed device whose backing file does not exist yet matches a fresh reference device. */
  lemma FreshSimulates(capacity: nat)
    requires capacity < LBA_LIMIT
    ensures Simulates(Qemu(ZeroBytes(capacity * BLOCK_SIZE), None, true, ZERO_QUEUE), R.FreshRef(capacity))
  {
    forall l | 0 <= l < capacity
      ensures BlockAt(ZeroBytes(capacity * BLOCK_SIZE), l) == ZeroBlock()
    {
      ZeroBlocks(capacity, l);
    }
  }
}
