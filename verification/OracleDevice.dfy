/** The mutable reference device of src/openflash/device.py, proved against ReferenceDevice. */
module OracleDevice {
  import opened Common
  import opened Abi
  import opened ReferenceDevice

  /** The caller's data buffers, which reads fill in place. */
  class DmaBuffers {
    var buffers: Dma

    constructor (buffers: Dma)
      ensures this.buffers == buffers
    {
      this.buffers := buffers;
    }
  }

  class Device {
    const capacity: int
    var stable: map<int, Block>
    var overlay: map<int, Option<Block>>
    var nextFault: Option<Status>
    var completed: nat

    function State(): Ref
      reads this
    {
      Ref(capacity, stable, overlay, nextFault, completed)
    }

    constructor (capacity: int)
      ensures State() == FreshRef(capacity)
    {
      this.capacity := capacity;
      stable, overlay, nextFault, completed := map[], map[], None, 0;
    }

    /** Injecting SUCCESS is refused. */
    method InjectNextFault(status: Status) returns (ok: bool)
      modifies this`nextFault
      ensures (State(), if ok then Accepted else Rejected) == Step(old(State()), Inject(status))
    {
      ok := status != Success;
      if ok {
        nextFault := Some(status);
      }
    }

    method LosePower()
      modifies this`overlay
      ensures State() == Step(old(State()), PowerLoss).0
    {
      overlay := map[];
    }

    /** The overlay entries are applied in any order. */
    method FlushOverlay()
      modifies this`stable, this`overlay
      ensures State() == Flush(old(State()))
    {
      var rest := overlay.Keys;
      while rest != {}
        invariant rest <= overlay.Keys && overlay == old(overlay)
        invariant stable == Applied(old(stable), overlay - rest)
        decreases |rest|
      {
        var lba := AnyOf(rest);
        ApplyOne(old(stable), overlay, rest, lba);
        if overlay[lba].None? {
          stable := stable - {lba};
        } else {
          stable := stable[lba := overlay[lba].value];
        }
        rest := rest - {lba};
      }
      assert overlay - {} == overlay;
      overlay := map[];
    }

    method DiscardRange(lba: int, n: nat)
      modifies this`overlay
      ensures State() == Discard(old(State()), lba, n)
    {
      for i := 0 to n
        invariant overlay == old(overlay) + Holes(lba, i)
      {
        overlay := overlay[lba + i := None];
        assert Holes(lba, i + 1) == Holes(lba, i)[lba + i := None];
      }
    }

    method StoreRange(lba: int, n: nat, buffer: seq<Byte>)
      requires n * BLOCK_SIZE <= |buffer|
      modifies this`overlay
      ensures State() == Store(old(State()), lba, n, buffer)
    {
      for i := 0 to n
        invariant overlay == old(overlay) + Written(lba, i, buffer)
      {
        overlay := overlay[lba + i := Some(BlockAt(buffer, i))];
        assert Written(lba, i + 1, buffer) == Written(lba, i, buffer)[lba + i := Some(BlockAt(buffer, i))];
      }
    }

    /** Copy `n` blocks into the front of the buffer at `addr`. */
    method FillBuffer(lba: int, n: nat, addr: int, dma: DmaBuffers)
      requires addr in dma.buffers && n * BLOCK_SIZE <= |dma.buffers[addr]|
      modifies dma
      ensures dma.buffers == old(dma.buffers)[addr := Fill(old(dma.buffers)[addr], Blocks(CurrentOf(State()), lba, n))]
    {
      ghost var buffer := dma.buffers[addr];
      assert Fill(buffer, []) == buffer && dma.buffers[addr := buffer] == dma.buffers;
      for i := 0 to n
        invariant dma.buffers == old(dma.buffers)[addr := Fill(buffer, Blocks(CurrentOf(State()), lba, i))]
      {
        var data: Block := if lba + i in overlay then (if overlay[lba + i].Some? then overlay[lba + i].value else ZeroBlock())
                           else if lba + i in stable then stable[lba + i] else ZeroBlock();
        var b := dma.buffers[addr];
        FillOne(buffer, CurrentOf(State()), lba, i);
        dma.buffers := dma.buffers[addr := b[..i * BLOCK_SIZE] + data + b[(i + 1) * BLOCK_SIZE..]];
      }
    }

    method DispatchCommand(c: Command, dma: DmaBuffers) returns (status: Status, result: int)
      modifies this`stable, this`overlay, dma
      ensures Effect(State(), dma.buffers, status, result) == Dispatch(old(State()), c, old(dma.buffers))
    {
      if c.opcode == OP_IDENTIFY {
        return Success, capacity;
      }
      if c.opcode == OP_FLUSH {
        FlushOverlay();
        return Success, 0;
      }
      if c.opcode != OP_READ && c.opcode != OP_WRITE && c.opcode != OP_DISCARD {
        return InvalidOpcode, 0;
      }
      if c.nblocks <= 0 {
        return InvalidField, 0;
      }
      if c.lba + c.nblocks > capacity {
        return LbaRange, 0;
      }
      if c.opcode == OP_DISCARD {
        DiscardRange(c.lba, c.nblocks);
        return Success, c.nblocks;
      }
      if c.dataAddr !in dma.buffers || |dma.buffers[c.dataAddr]| < c.nblocks * BLOCK_SIZE {
        return InvalidField, 0;
      }
      if c.opcode == OP_WRITE {
        StoreRange(c.lba, c.nblocks, dma.buffers[c.dataAddr]);
        if c.Fua() {
          FlushOverlay();
        }
      } else {
        FillBuffer(c.lba, c.nblocks, c.dataAddr, dma);
      }
      return Success, c.nblocks;
    }

    method ExecuteCommand(c: Command, dma: DmaBuffers) returns (completion: Completion)
      modifies this`stable, this`overlay, this`nextFault, this`completed, dma
      ensures (State(), dma.buffers, completion) == Execute(old(State()), c, old(dma.buffers))
    {
      var fault := nextFault;
      nextFault := None;
      var status, result := Success, 0;
      if fault.Some? {
        status := fault.value;
      } else {
        status, result := DispatchCommand(c, dma);
      }
      completion := Completion(result, c.userData, completed % 0x10000, c.cid, status, 0);
      completed := completed + 1;
    }
  }

  lemma ApplyOne(stable: map<int, Block>, overlay: map<int, Option<Block>>, rest: set<int>, lba: int)
    requires rest <= overlay.Keys && lba in rest
    ensures var before := Applied(stable, overlay - rest);
            Applied(stable, overlay - (rest - {lba})) ==
              if overlay[lba].None? then before - {lba} else before[lba := overlay[lba].value]
  {
  }

  lemma FillOne(buffer: seq<Byte>, store: int -> Block, lba: int, i: nat)
    requires (i + 1) * BLOCK_SIZE <= |buffer|
    ensures var b := Fill(buffer, Blocks(store, lba, i));
            b[..i * BLOCK_SIZE] + store(lba + i) + b[(i + 1) * BLOCK_SIZE..] == Fill(buffer, Blocks(store, lba, i + 1))
  {
  }
}
