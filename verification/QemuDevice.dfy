/** openflash_transfer, openflash_persist and openflash_execute of the QEMU device, working in
    place on the storage array and on guest memory, proved against QemuSpec. */
module QemuDevice {
  import opened Common
  import opened Abi
  import opened DeviceQueue
  import opened QemuSpec

  class GuestMemory {
    var bytes: Memory

    constructor (bytes: Memory)
      ensures this.bytes == bytes
    {
      this.bytes := bytes;
    }
  }

  class Device {
    const storage: array<Byte>
    const backed: bool
    var image: Option<seq<Byte>>
    var ioq: DevQueue

    ghost function State(): Qemu
      reads this, storage
    {
      Qemu(storage[..], image, backed, ioq)
    }

    /** Start-up: storage is loaded from the backing file, whose length must match, or zeroed. */
    constructor (capacity: nat, backed: bool, image: Option<seq<Byte>>)
      requires image.Some? ==> |image.value| == capacity
      ensures fresh(storage) && State() == Restart(Qemu(ZeroBytes(capacity), image, backed, ZERO_QUEUE))
    {
      this.backed := backed;
      this.image := image;
      this.ioq := ZERO_QUEUE;
      var bytes := if backed && image.Some? then image.value else ZeroBytes(capacity);
      storage := new Byte[capacity](i requires 0 <= i < |bytes| => bytes[i]);
      new;
      assert storage[..] == bytes;
    }

    method CopyIn(offset: nat, bytes: seq<Byte>)
      requires offset + |bytes| <= storage.Length
      modifies storage
      ensures storage[..] == Splice(old(storage[..]), offset, bytes)
    {
      for i := 0 to |bytes|
        invariant forall k :: 0 <= k < storage.Length ==>
                    storage[k] == if offset <= k < offset + i then bytes[k - offset] else old(storage[k])
      {
        storage[offset + i] := bytes[i];
      }
    }

    method MoveSegment(desc: Segment, at: nat, write: bool, mem: GuestMemory)
      requires at + desc.length <= storage.Length
      modifies storage, mem
      ensures if write then storage[..] == Splice(old(storage[..]), at, ReadMem(mem.bytes, desc.addr, desc.length)) && mem.bytes == old(mem.bytes)
              else storage[..] == old(storage[..]) && mem.bytes == WriteMem(old(mem.bytes), desc.addr, storage[..][at..at + desc.length])
    {
      if write {
        CopyIn(at, ReadMem(mem.bytes, desc.addr, desc.length));
      } else {
        assert storage[at..at + desc.length] == storage[..][at..at + desc.length];
        mem.bytes := WriteMem(mem.bytes, desc.addr, storage[at..at + desc.length]);
      }
    }

    /** The list walk: each descriptor is fetched from guest memory when its turn comes. */
    method TransferList(list: int, count: nat, offset: nat, length: nat, write: bool, mem: GuestMemory) returns (ok: bool)
      requires offset + length <= storage.Length
      modifies storage, mem
      ensures if write then (storage[..], ok) == SglIn(DecodeDesc, old(storage[..]), old(mem.bytes), list, 0, count, offset, length, 0) && mem.bytes == old(mem.bytes)
              else (mem.bytes, ok) == SglOut(DecodeDesc, old(storage[..]), old(mem.bytes), list, 0, count, offset, length, 0) && storage[..] == old(storage[..])
    {
      var transferred := 0;
      for index := 0 to count
        invariant 0 <= transferred <= length
        invariant if write then mem.bytes == old(mem.bytes) else storage[..] == old(storage[..])
        invariant write ==> SglIn(DecodeDesc, storage[..], mem.bytes, list, index, count, offset, length, transferred)
                              == SglIn(DecodeDesc, old(storage[..]), old(mem.bytes), list, 0, count, offset, length, 0)
        invariant !write ==> SglOut(DecodeDesc, storage[..], mem.bytes, list, index, count, offset, length, transferred)
                              == SglOut(DecodeDesc, old(storage[..]), old(mem.bytes), list, 0, count, offset, length, 0)
      {
        var moved := MoveEntry(list, index, count, offset, length, transferred, write, mem);
        if moved == 0 {
          return false;
        }
        transferred := transferred + moved;
      }
      return transferred == length;
    }

    /** One descriptor of the walk; a rejected one moves nothing and ends the walk. */
    method MoveEntry(list: int, index: nat, ghost count: nat, offset: nat, length: nat, transferred: nat, write: bool, mem: GuestMemory) returns (moved: nat)
      requires offset + length <= storage.Length && transferred <= length && index < count
      modifies storage, mem
      ensures moved <= length - transferred
      ensures if write then mem.bytes == old(mem.bytes) else storage[..] == old(storage[..])
      ensures write ==>
                SglIn(DecodeDesc, old(storage[..]), old(mem.bytes), list, index, count, offset, length, transferred)
                  == if moved == 0 then (storage[..], false)
                     else SglIn(DecodeDesc, storage[..], mem.bytes, list, index + 1, count, offset, length, transferred + moved)
      ensures !write ==>
                SglOut(DecodeDesc, old(storage[..]), old(mem.bytes), list, index, count, offset, length, transferred)
                  == if moved == 0 then (mem.bytes, false)
                     else SglOut(DecodeDesc, storage[..], mem.bytes, list, index + 1, count, offset, length, transferred + moved)
    {
      var desc := DescAt(DecodeDesc, mem.bytes, list, index);
      if desc.addr == 0 || desc.length == 0 || desc.length > length - transferred {
        return 0;
      }
      MoveSegment(desc, offset + transferred, write, mem);
      return desc.length;
    }

    method Transfer(c: Command, offset: nat, length: nat, write: bool, mem: GuestMemory) returns (ok: bool)
      requires offset + length <= storage.Length
      modifies storage, mem
      ensures if write then (storage[..], ok) == TransferIn(old(storage[..]), old(mem.bytes), c, offset, length) && mem.bytes == old(mem.bytes)
              else (mem.bytes, ok) == TransferOut(old(storage[..]), old(mem.bytes), c, offset, length) && storage[..] == old(storage[..])
    {
      if !c.Sgl() {
        if c.dataAddr == 0 {
          return false;
        }
        if write {
          CopyIn(offset, ReadMem(mem.bytes, c.dataAddr, length));
        } else {
          mem.bytes := WriteMem(mem.bytes, c.dataAddr, storage[offset..offset + length]);
        }
        return true;
      }
      var count := SglCount(c);
      if count == 0 || count > MAX_SGL_ENTRIES || c.dataAddr == 0 {
        return false;
      }
      ok := TransferList(c.dataAddr, count, offset, length, write, mem);
    }

    method PersistStorage(writable: bool) returns (ok: bool)
      modifies this`image
      ensures (State(), ok) == Persist(old(State()), writable)
    {
      if !backed {
        return true;
      }
      if writable {
        image := Some(storage[..]);
        return true;
      }
      return false;
    }

    method ExecuteCommand(c: Command, mem: GuestMemory, writable: bool) returns (status: Status, result: int)
      requires c.lba >= 0 && c.nblocks >= 0
      modifies this`image, this`ioq, storage, mem
      ensures Effect(State(), mem.bytes, status, result) == Execute(old(State()), c, old(mem.bytes), writable)
    {
      var offset := c.lba * BLOCK_SIZE % ADDRESS_SPACE;
      var length := c.nblocks * BLOCK_SIZE;
      if c.opcode == OP_IDENTIFY {
        return Success, storage.Length / BLOCK_SIZE;
      }
      if c.opcode == OP_CREATE_IOQ {
        var qid, vector := c.control % 0x1_0000, c.control / 0x1_0000;
        if qid == 0 || qid >= MAX_QUEUES || vector >= MAX_QUEUES || c.nblocks == 0 || c.nblocks > MAX_DEPTH || c.dataAddr == 0 || c.metadataAddr == 0 {
          return InvalidField, 0;
        }
        ioq := ioq.(sqAddr := c.dataAddr, cqAddr := c.metadataAddr, depth := c.nblocks);
        ioq := ioq.(sqHead := 0, cqTail := 0, cqHead := 0, phase := 1, vector := vector, enabled := true);
        return Success, qid;
      }
      if c.opcode == OP_FLUSH {
        var ok := PersistStorage(writable);
        return if ok then Success else Internal, 0;
      }
      if c.nblocks == 0 {
        return InvalidField, 0;
      }
      if offset > storage.Length || length > storage.Length - offset {
        return LbaRange, 0;
      }
      if c.opcode == OP_READ {
        var ok := Transfer(c, offset, length, false, mem);
        if !ok {
          return InvalidField, 0;
        }
      } else if c.opcode == OP_WRITE {
        var ok := Transfer(c, offset, length, true, mem);
        if !ok {
          return InvalidField, 0;
        }
        if c.Fua() {
          var kept := PersistStorage(writable);
          if !kept {
            return Internal, 0;
          }
        }
      } else if c.opcode == OP_DISCARD {
        CopyIn(offset, ZeroBytes(length));
      } else {
        return InvalidOpcode, 0;
      }
      return Success, c.nblocks;
    }
  }
}
