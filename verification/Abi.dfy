/** Commands, completions and byte buffers of the OpenFlash ABI (src/openflash/abi.py). */
module Abi {
  const BLOCK_SIZE: nat := 4096

  type Byte = x: int | 0 <= x < 256

  type Block = b: seq<Byte> | |b| == BLOCK_SIZE witness seq(BLOCK_SIZE, _ => 0)

  function ZeroBlock(): Block {
    seq(BLOCK_SIZE, _ => 0)
  }

  const OP_READ := 0x01
  const OP_WRITE := 0x02
  const OP_FLUSH := 0x03
  const OP_DISCARD := 0x04
  const OP_IDENTIFY := 0x80

  datatype Status = Success | InvalidOpcode | InvalidField | LbaRange | MediaError | EccUncorrectable | Aborted | Internal

  datatype Command = Command(opcode: int, flags: int, cid: int, lba: int, nblocks: int, control: int, dataAddr: int,
                             metadataAddr: int, userData: int)
  {
    /** Bit 0 of the flags. */
    predicate Fua() {
      flags % 2 == 1
    }

    /** Bit 1 of the flags. */
    predicate Sgl() {
      flags / 2 % 2 == 1
    }
  }

  datatype Completion = Completion(result: int, userData: int, sqHead: int, cid: int, status: Status, flags: int)

  /** Data buffers by DMA address. */
  type Dma = map<int, seq<Byte>>

  /** The i-th block of a buffer. */
  function BlockAt(buffer: seq<Byte>, i: nat): Block
    requires (i + 1) * BLOCK_SIZE <= |buffer|
  {
    buffer[i * BLOCK_SIZE..(i + 1) * BLOCK_SIZE]
  }

  /** `n` consecutive blocks of a store, concatenated. */
  function Blocks(store: int -> Block, lba: int, n: nat): (bytes: seq<Byte>)
    ensures |bytes| == n * BLOCK_SIZE
  {
    if n == 0 then [] else Blocks(store, lba, n - 1) + store(lba + n - 1)
  }

  lemma {:induction false} BlocksAgree(f: int -> Block, g: int -> Block, lba: int, n: nat)
    requires forall l :: lba <= l < lba + n ==> f(l) == g(l)
    ensures Blocks(f, lba, n) == Blocks(g, lba, n)
  {
    if n > 0 {
      BlocksAgree(f, g, lba, n - 1);
    }
  }

  /** The concatenation can be cut back into its blocks. */
  lemma {:induction false} BlocksAt(store: int -> Block, lba: int, n: nat, i: nat)
    requires i < n
    ensures BlockAt(Blocks(store, lba, n), i) == store(lba + i)
  {
    if i < n - 1 {
      BlocksAt(store, lba, n - 1, i);
      assert BlockAt(Blocks(store, lba, n), i) == BlockAt(Blocks(store, lba, n - 1), i);
    }
  }

  function Range(lba: int, n: nat): (r: set<int>)
    ensures forall l :: l in r <==> lba <= l < lba + n
  {
    if n == 0 then {} else Range(lba, n - 1) + {lba + n - 1}
  }
}
