/** Queue registers of the QEMU device (qemu/hw/block/openflash.c) and the queue creation command. */
module DeviceQueue {
  const MAX_QUEUES := 2
  const MAX_DEPTH := 4096

  datatype DevQueue = DevQueue(sqAddr: int, cqAddr: int, depth: int, sqHead: nat, cqTail: nat, cqHead: nat,
                               vector: int, phase: int, enabled: bool)

  const ZERO_QUEUE := DevQueue(0, 0, 0, 0, 0, 0, 0, 0, false)

  /** Queue creation accepts queue 1 only, with a vector and a depth in range and rings in memory. */
  predicate Creatable(qid: int, vector: int, depth: int, sqAddr: int, cqAddr: int) {
    0 < qid < MAX_QUEUES && vector < MAX_QUEUES && 0 < depth <= MAX_DEPTH && sqAddr != 0 && cqAddr != 0
  }

  function NewQueue(vector: int, depth: int, sqAddr: int, cqAddr: int): DevQueue {
    DevQueue(sqAddr, cqAddr, depth, 0, 0, 0, vector, 1, true)
  }
}
