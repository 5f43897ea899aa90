/** The behavioural oracle of src/openflash/device.py: a volatile overlay over a stable map, and
    its refinement of a pair of stores, the current one and the durable one. */
module ReferenceDevice {
  import opened Common
  import opened Abi

  /** A None in the overlay is a discarded block. */
  datatype Ref = Ref(capacity: int, stable: map<int, Block>, overlay: map<int, Option<Block>>,
                     fault: Option<Status>, completed: nat)

  function FreshRef(capacity: int): Ref {
    Ref(capacity, map[], map[], None, 0)
  }

  /** What a read of `lba` sees. */
  function View(d: Ref, lba: int): Block {
    if lba !in d.overlay then Durable(d, lba)
    else if d.overlay[lba].Some? then d.overlay[lba].value
    else ZeroBlock()
  }

  /** What survives a power loss. */
  function Durable(d: Ref, lba: int): Block {
    if lba in d.stable then d.stable[lba] else ZeroBlock()
  }

  function CurrentOf(d: Ref): int -> Block {
    l => View(d, l)
  }

  /** The overlay applied to the stable blocks: written blocks replace them, discarded ones go. */
  function Applied(stable: map<int, Block>, overlay: map<int, Option<Block>>): map<int, Block> {
    map l | l in stable.Keys + overlay.Keys && (l in overlay ==> overlay[l].Some?) ::
      (if l in overlay then overlay[l].value else stable[l])
  }

  function Flush(d: Ref): Ref {
    d.(stable := Applied(d.stable, d.overlay), overlay := map[])
  }

  function Holes(lba: int, n: nat): map<int, Option<Block>> {
    map l | l in Range(lba, n) :: None
  }

  function Discard(d: Ref, lba: int, n: nat): Ref {
    d.(overlay := d.overlay + Holes(lba, n))
  }

  function Written(lba: int, n: nat, buffer: seq<Byte>): map<int, Option<Block>>
    requires n * BLOCK_SIZE <= |buffer|
  {
    map l | l in Range(lba, n) :: Some(BlockAt(buffer, l - lba))
  }

  function Store(d: Ref, lba: int, n: nat, buffer: seq<Byte>): Ref
    requires n * BLOCK_SIZE <= |buffer|
  {
    d.(overlay := d.overlay + Written(lba, n, buffer))
  }

  /** The buffer after a read: the blocks at its front, the rest untouched. */
  function Fill(buffer: seq<Byte>, bytes: seq<Byte>): seq<Byte>
    requires |bytes| <= |buffer|
  {
    bytes + buffer[|bytes|..]
  }

  datatype Effect = Effect(dev: Ref, dma: Dma, status: Status, result: int)

  function Dispatch(d: Ref, c: Command, dma: Dma): Effect {
    if c.opcode == OP_IDENTIFY then Effect(d, dma, Success, d.capacity)
    else if c.opcode == OP_FLUSH then Effect(Flush(d), dma, Success, 0)
    else if c.opcode != OP_READ && c.opcode != OP_WRITE && c.opcode != OP_DISCARD then Effect(d, dma, InvalidOpcode, 0)
    else if c.nblocks <= 0 then Effect(d, dma, InvalidField, 0)
    else if c.lba + c.nblocks > d.capacity then Effect(d, dma, LbaRange, 0)
    else if c.opcode == OP_DISCARD then Effect(Discard(d, c.lba, c.nblocks), dma, Success, c.nblocks)
    else if c.dataAddr !in dma || |dma[c.dataAddr]| < c.nblocks * BLOCK_SIZE then Effect(d, dma, InvalidField, 0)
    else if c.opcode == OP_WRITE then
      var stored := Store(d, c.lba, c.nblocks, dma[c.dataAddr]);
      Effect(if c.Fua() then Flush(stored) else stored, dma, Success, c.nblocks)
    else
      var bytes := Blocks(CurrentOf(d), c.lba, c.nblocks);
      Effect(d, dma[c.dataAddr := Fill(dma[c.dataAddr], bytes)], Success, c.nblocks)
  }

  /** A pending fault replaces the next command, whatever it is. */
  function Execute(d: Ref, c: Command, dma: Dma): (Ref, Dma, Completion) {
    var e := if d.fault.Some? then Effect(d.(fault := None), dma, d.fault.value, 0) else Dispatch(d, c, dma);
    (e.dev.(completed := d.completed + 1), e.dma,
     Completion(e.result, c.userData, d.completed % 0x10000, c.cid, e.status, 0))
  }

  // ----- the durability specification

  datatype Stores = Stores(capacity: int, cur: int -> Block, dur: int -> Block, fault: Option<Status>, completed: nat)

  /** One command on the two stores. */
  datatype SpecEffect = SpecEffect(cur: int -> Block, dur: int -> Block, dma: Dma, status: Status, result: int)

  function Overwrite(f: int -> Block, lba: int, n: nat, g: int -> Block): int -> Block {
    l => if lba <= l < lba + n then g(l) else f(l)
  }

  function Zeros(): int -> Block {
    _ => ZeroBlock()
  }

  function PayloadAt(buffer: seq<Byte>, i: int): Block {
    if i >= 0 && (i + 1) * BLOCK_SIZE <= |buffer| then BlockAt(buffer, i) else ZeroBlock()
  }

  /** The blocks of a buffer laid out from `lba` on; zero beyond its end. */
  function Payload(buffer: seq<Byte>, lba: int): int -> Block {
    l => PayloadAt(buffer, l - lba)
  }

  function Unchanged(s: Stores, dma: Dma, status: Status): SpecEffect {
    SpecEffect(s.cur, s.dur, dma, status, 0)
  }

  function SpecCommand(s: Stores, c: Command, dma: Dma): SpecEffect {
    var inRange := 0 < c.nblocks && c.lba + c.nblocks <= s.capacity;
    var buffered := c.dataAddr in dma && |dma[c.dataAddr]| >= c.nblocks * BLOCK_SIZE;
    if s.fault.Some? then Unchanged(s, dma, s.fault.value)
    else if c.opcode == OP_IDENTIFY then SpecEffect(s.cur, s.dur, dma, Success, s.capacity)
    else if c.opcode == OP_FLUSH then SpecEffect(s.cur, s.cur, dma, Success, 0)
    else if c.opcode != OP_READ && c.opcode != OP_WRITE && c.opcode != OP_DISCARD then Unchanged(s, dma, InvalidOpcode)
    else if !inRange then Unchanged(s, dma, if c.nblocks <= 0 then InvalidField else LbaRange)
    else if c.opcode == OP_DISCARD then
      SpecEffect(Overwrite(s.cur, c.lba, c.nblocks, Zeros()), s.dur, dma, Success, c.nblocks)
    else if !buffered then Unchanged(s, dma, InvalidField)
    else if c.opcode == OP_WRITE then
      var cur := Overwrite(s.cur, c.lba, c.nblocks, Payload(dma[c.dataAddr], c.lba));
      SpecEffect(cur, if c.Fua() then cur else s.dur, dma, Success, c.nblocks)
    else
      SpecEffect(s.cur, s.dur, dma[c.dataAddr := Fill(dma[c.dataAddr], Blocks(s.cur, c.lba, c.nblocks))], Success, c.nblocks)
  }

  /** `d` stands for the stores `s`. */
  ghost predicate Refines(d: Ref, s: Stores) {
    && s.capacity == d.capacity && s.fault == d.fault && s.completed == d.completed
    && forall l :: View(d, l) == s.cur(l) && Durable(d, l) == s.dur(l)
  }

  // ----- runs

  datatype Event = Exec(command: Command, dma: Dma) | Inject(status: Status) | PowerLoss

  datatype Reply = Completed(completion: Completion, dma: Dma) | Accepted | Rejected

  function Step(d: Ref, e: Event): (Ref, Reply) {
    match e
    case Exec(c, dma) => (var (d', dma', completion) := Execute(d, c, dma); (d', Completed(completion, dma')))
    case Inject(status) => if status == Success then (d, Rejected) else (d.(fault := Some(status)), Accepted)
    case PowerLoss => (d.(overlay := map[]), Accepted)
  }

  function SpecStep(s: Stores, e: Event): (Stores, Reply) {
    match e
    case Exec(c, dma) =>
      var r := SpecCommand(s, c, dma);
      (Stores(s.capacity, r.cur, r.dur, None, s.completed + 1),
       Completed(Completion(r.result, c.userData, s.completed % 0x10000, c.cid, r.status, 0), r.dma))
    case Inject(status) => if status == Success then (s, Rejected) else (s.(fault := Some(status)), Accepted)
    case PowerLoss => (s.(cur := s.dur), Accepted)
  }

  function Run(d: Ref, events: seq<Event>): (Ref, seq<Reply>)
    decreases |events|
  {
    if events == [] then (d, [])
    else
      var (d', reply) := Step(d, events[0]);
      var (last, replies) := Run(d', events[1..]);
      (last, [reply] + replies)
  }

  function SpecRun(s: Stores, events: seq<Event>): (Stores, seq<Reply>)
    decreases |events|
  {
    if events == [] then (s, [])
    else
      var (s', reply) := SpecStep(s, events[0]);
      var (last, replies) := SpecRun(s', events[1..]);
      (last, [reply] + replies)
  }

  lemma FlushStores(d: Ref, l: int)
    ensures View(Flush(d), l) == View(d, l) && Durable(Flush(d), l) == View(d, l)
  {
  }

  lemma WrittenAt(lba: int, n: nat, buffer: seq<Byte>, i: nat)
    requires n * BLOCK_SIZE <= |buffer| && i < n
    ensures (i + 1) * BLOCK_SIZE <= |buffer|
    ensures lba + i in Written(lba, n, buffer) && Written(lba, n, buffer)[lba + i] == Some(PayloadAt(buffer, i))
  {
  }

  lemma StoreView(d: Ref, lba: int, n: nat, buffer: seq<Byte>, l: int)
    requires n * BLOCK_SIZE <= |buffer|
    ensures View(Store(d, lba, n, buffer), l) == Overwrite(CurrentOf(d), lba, n, Payload(buffer, lba))(l)
    ensures Durable(Store(d, lba, n, buffer), l) == Durable(d, l)
  {
    if lba <= l < lba + n {
      WrittenAt(lba, n, buffer, l - lba);
      assert Payload(buffer, lba)(l) == PayloadAt(buffer, l - lba);
    } else {
      assert l !in Written(lba, n, buffer);
      assert CurrentOf(d)(l) == View(d, l);
    }
  }

  lemma DiscardView(d: Ref, lba: int, n: nat, l: int)
    ensures View(Discard(d, lba, n), l) == (if lba <= l < lba + n then ZeroBlock() else View(d, l))
    ensures Durable(Discard(d, lba, n), l) == Durable(d, l)
  {
  }

  /** The effect of a command on the device matches its effect on the stores. */
  ghost predicate Matches(e: Effect, r: SpecEffect) {
    && e.dma == r.dma && e.status == r.status && e.result == r.result
    && forall l :: View(e.dev, l) == r.cur(l) && Durable(e.dev, l) == r.dur(l)
  }

  lemma WriteRefines(d: Ref, s: Stores, c: Command, dma: Dma)
    requires Refines(d, s) && d.fault.None? && c.opcode == OP_WRITE
    ensures Matches(Dispatch(d, c, dma), SpecCommand(s, c, dma))
  {
    if 0 < c.nblocks && c.dataAddr in dma && |dma[c.dataAddr]| >= c.nblocks * BLOCK_SIZE {
      var buffer, n := dma[c.dataAddr], c.nblocks;
      forall l
        ensures View(Store(d, c.lba, n, buffer), l) == Overwrite(s.cur, c.lba, n, Payload(buffer, c.lba))(l)
        ensures Durable(Store(d, c.lba, n, buffer), l) == Durable(d, l)
      {
        StoreView(d, c.lba, n, buffer, l);
      }
      forall l
        ensures var t := Store(d, c.lba, n, buffer); View(Flush(t), l) == View(t, l) && Durable(Flush(t), l) == View(t, l)
      {
        FlushStores(Store(d, c.lba, n, buffer), l);
      }
    }
  }

  lemma ReadRefines(d: Ref, s: Stores, c: Command, dma: Dma)
    requires Refines(d, s) && d.fault.None? && c.opcode == OP_READ
    ensures Matches(Dispatch(d, c, dma), SpecCommand(s, c, dma))
  {
    if c.nblocks > 0 { BlocksAgree(CurrentOf(d), s.cur, c.lba, c.nblocks); }
  }

  lemma DiscardRefines(d: Ref, s: Stores, c: Command, dma: Dma)
    requires Refines(d, s) && d.fault.None? && c.opcode == OP_DISCARD
    ensures Matches(Dispatch(d, c, dma), SpecCommand(s, c, dma))
  {
    if c.nblocks > 0 {
      forall l
        ensures View(Discard(d, c.lba, c.nblocks), l) == Overwrite(s.cur, c.lba, c.nblocks, Zeros())(l)
        ensures Durable(Discard(d, c.lba, c.nblocks), l) == Durable(d, l)
      {
        DiscardView(d, c.lba, c.nblocks, l);
      }
    }
  }

  lemma CommandRefines(d: Ref, s: Stores, c: Command, dma: Dma)
    requires Refines(d, s) && d.fault.None?
    ensures Matches(Dispatch(d, c, dma), SpecCommand(s, c, dma))
  {
    if c.opcode == OP_WRITE {
      WriteRefines(d, s, c, dma);
    } else if c.opcode == OP_READ {
      ReadRefines(d, s, c, dma);
    } else if c.opcode == OP_DISCARD {
      DiscardRefines(d, s, c, dma);
    } else {
      forall l ensures View(Flush(d), l) == s.cur(l) && Durable(Flush(d), l) == s.cur(l) { FlushStores(d, l); }
    }
  }

  lemma StepRefines(d: Ref, s: Stores, e: Event)
    requires Refines(d, s)
    ensures Step(d, e).1 == SpecStep(s, e).1 && Refines(Step(d, e).0, SpecStep(s, e).0)
  {
    if e.Exec? && d.fault.None? {
      CommandRefines(d, s, e.command, e.dma);
      var x, r := Dispatch(d, e.command, e.dma), SpecCommand(s, e.command, e.dma);
      var d' := Step(d, e).0;
      forall l ensures View(d', l) == r.cur(l) && Durable(d', l) == r.dur(l)
      {
        assert View(d', l) == View(x.dev, l) && Durable(d', l) == Durable(x.dev, l);
      }
    }
  }

  /** For every run of commands, injected faults and power losses the device answers exactly as
      the pair of stores does: reads return the current store, flush and FUA writes make it durable,
      power loss falls back to the durable one, and failed or faulted commands change neither. */
  lemma {:induction false} RunRefines(d: Ref, s: Stores, events: seq<Event>)
    requires Refines(d, s)
    ensures Run(d, events).1 == SpecRun(s, events).1 && Refines(Run(d, events).0, SpecRun(s, events).0)
    decreases |events|
  {
    if events != [] {
      StepRefines(d, s, events[0]);
      RunRefines(Step(d, events[0]).0, SpecStep(s, events[0]).0, events[1..]);
    }
  }

  lemma FreshRefines(capacity: int)
    ensures Refines(FreshRef(capacity), Stores(capacity, Zeros(), Zeros(), None, 0))
  {
  }

  /** A command that does not succeed changes no store and no buffer, and a fault is used up. */
  lemma FailureChangesNothing(d: Ref, c: Command, dma: Dma)
    ensures var (d', dma', completion) := Execute(d, c, dma);
            completion.status != Success ==> dma' == dma && d' == d.(fault := None, completed := d.completed + 1)
  {
  }
}
