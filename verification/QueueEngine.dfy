/** The reference queue engine of src/openflash/queue.py: bounded rings with masked indices,
    counts and phase bits, proved to behave as the FIFO of the Fifo module. */
module QueueEngine {
  import opened Common
  import opened Abi
  import opened OracleDevice
  import opened Bits
  import Ring
  import Fifo

  /** The constructor accepts exactly the powers of two from two on. */
  lemma AcceptedDepths(depth: int)
    ensures (depth < 2 || And(depth, depth - 1) != 0) <==> !(depth >= 2 && IsPow2(depth))
  {
    if depth >= 2 { PowerOfTwoTest(depth); }
  }

  /** The next index is taken modulo the depth although the code masks it. */
  lemma MaskedNext(i: nat, n: nat, depth: nat)
    requires depth >= 2 && IsPow2(depth) && i == n % depth
    ensures And(i + 1, depth - 1) == (n + 1) % depth
    ensures Ring.Phase(n + 1, depth) == if (n + 1) % depth == 0 then 1 - Ring.Phase(n, depth) else Ring.Phase(n, depth)
  {
    var k: nat :| depth == Pow2(k);
    MaskIsMod(i + 1, k);
    Ring.NextIndex(n, depth);
    Ring.NextPhase(n, depth);
  }

  /** A ring of optional entries holds items [lo, hi) of a history. */
  ghost predicate Holds<T>(ring: seq<Option<T>>, items: seq<T>, lo: nat, hi: nat) {
    lo <= hi <= |items| && hi - lo <= |ring| && |ring| > 0 && forall i :: lo <= i < hi ==> ring[i % |ring|] == Some(items[i])
  }

  lemma Enqueue<T>(ring: seq<Option<T>>, items: seq<T>, lo: nat, x: T)
    requires Holds(ring, items, lo, |items|) && |items| - lo < |ring|
    ensures Holds(ring[|items| % |ring| := Some(x)], items + [x], lo, |items| + 1)
  {
    forall i | lo <= i < |items|
      ensures i % |ring| != |items| % |ring|
    {
      Ring.WindowDistinct(i, |items|, |ring|);
    }
  }

  lemma Dequeue<T>(ring: seq<Option<T>>, items: seq<T>, lo: nat, hi: nat)
    requires Holds(ring, items, lo, hi) && lo < hi
    ensures ring[lo % |ring|] == Some(items[lo]) && Holds(ring[lo % |ring| := None], items, lo + 1, hi)
  {
    forall i | lo < i < hi
      ensures i % |ring| != lo % |ring|
    {
      Ring.WindowDistinct(lo, i, |ring|);
    }
  }

  /** The submission ring and its indices hold the commands from the n-th on. */
  ghost predicate SqOk(sq: seq<Option<Command>>, tail: nat, head: nat, count: nat, submitted: seq<Command>, n: nat, depth: nat) {
    && |sq| == depth && depth >= 2 && Holds(sq, submitted, n, |submitted|)
    && tail == |submitted| % depth && head == n % depth && count == |submitted| - n
  }

  /** The completion ring, its indices and phases hold the completions from the n-th on. */
  ghost predicate CqOk(cq: seq<Option<Completion>>, tail: nat, head: nat, count: nat, devicePhase: int, hostPhase: int,
                       answered: seq<Completion>, n: nat, depth: nat) {
    && |cq| == depth && depth >= 2 && Holds(cq, answered, n, |answered|)
    && tail == |answered| % depth && head == n % depth && count == |answered| - n
    && devicePhase == Ring.Phase(|answered|, depth) && hostPhase == Ring.Phase(n, depth)
    && forall i :: 0 <= i < |answered| ==> answered[i].flags % 2 == Ring.Phase(i, depth)
  }

  lemma SqSubmit(sq: seq<Option<Command>>, tail: nat, head: nat, count: nat, submitted: seq<Command>, n: nat, depth: nat, c: Command)
    requires SqOk(sq, tail, head, count, submitted, n, depth) && IsPow2(depth) && count < depth
    ensures SqOk(sq[tail := Some(c)], And(tail + 1, depth - 1), head, count + 1, submitted + [c], n, depth)
  {
    Enqueue(sq, submitted, n, c);
    MaskedNext(tail, |submitted|, depth);
  }

  lemma SqRetire(sq: seq<Option<Command>>, tail: nat, head: nat, count: nat, submitted: seq<Command>, n: nat, depth: nat)
    requires SqOk(sq, tail, head, count, submitted, n, depth) && IsPow2(depth) && count > 0
    ensures sq[head] == Some(submitted[n])
    ensures SqOk(sq[head := None], tail, And(head + 1, depth - 1), count - 1, submitted, n + 1, depth)
  {
    Dequeue(sq, submitted, n, |submitted|);
    MaskedNext(head, n, depth);
  }

  lemma CqPost(cq: seq<Option<Completion>>, tail: nat, head: nat, count: nat, devicePhase: int, hostPhase: int,
               answered: seq<Completion>, n: nat, depth: nat, c: Completion)
    requires CqOk(cq, tail, head, count, devicePhase, hostPhase, answered, n, depth) && IsPow2(depth) && count < depth
    requires c.flags % 2 == devicePhase
    ensures var next := And(tail + 1, depth - 1);
            CqOk(cq[tail := Some(c)], next, head, count + 1, if next == 0 then 1 - devicePhase else devicePhase, hostPhase, answered + [c], n, depth)
  {
    Enqueue(cq, answered, n, c);
    MaskedNext(tail, |answered|, depth);
  }

  lemma CqPop(cq: seq<Option<Completion>>, tail: nat, head: nat, count: nat, devicePhase: int, hostPhase: int,
              answered: seq<Completion>, n: nat, depth: nat)
    requires CqOk(cq, tail, head, count, devicePhase, hostPhase, answered, n, depth) && IsPow2(depth) && count > 0
    ensures cq[head] == Some(answered[n]) && answered[n].flags % 2 == hostPhase
    ensures var next := And(head + 1, depth - 1);
            CqOk(cq[head := None], tail, next, count - 1, devicePhase, if next == 0 then 1 - hostPhase else hostPhase, answered, n + 1, depth)
  {
    Dequeue(cq, answered, n, |answered|);
    MaskedNext(head, n, depth);
  }

  function NoEntries<T>(depth: nat): seq<Option<T>> {
    seq(depth, _ => None)
  }

  lemma EmptyOk(depth: nat)
    requires depth >= 2
    ensures SqOk(NoEntries(depth), 0, 0, 0, [], 0, depth) && CqOk(NoEntries(depth), 0, 0, 0, 1, 1, [], 0, depth)
  {
  }

  lemma StampedPhase(c: Completion, n: nat, depth: nat)
    requires depth > 0
    ensures Fifo.Stamp(c, n, depth).flags % 2 == Ring.Phase(n, depth)
  {
  }

  /** `q` follows `q0` by answering `n` commands. */
  predicate Progress(q0: Fifo.Queue, q: Fifo.Queue, n: nat) {
    q.depth == q0.depth && |q.submitted| == |q0.submitted| && |q.answered| == |q0.answered| + n && q.consumed == q0.consumed
  }

  lemma AnswerUnroll(q: Fifo.Queue, dma: Dma, k: nat)
    requires q.depth > 0 && 0 < k && |q.answered| + k <= |q.submitted|
    ensures var (q', dma') := Fifo.AnswerOne(q, dma); Fifo.Answer(q, dma, k) == Fifo.Answer(q', dma', k - 1)
  {
  }

  class Engine {
    const depth: nat
    const device: Device
    var sq: seq<Option<Command>>
    var cq: seq<Option<Completion>>
    var sqTail: nat
    var sqHead: nat
    var cqTail: nat
    var cqHead: nat
    var sqCount: nat
    var cqCount: nat
    var devicePhase: int
    var hostPhase: int
    var interrupts: nat
    // the history the rings encode
    ghost var submitted: seq<Command>
    ghost var answered: seq<Completion>
    ghost var seen: seq<Dma>
    ghost var consumed: nat

    /** The FIFO this engine stands for. */
    ghost function View(): Fifo.Queue
      reads this, device
    {
      Fifo.Queue(depth, device.State(), submitted, answered, seen, consumed, interrupts)
    }

    ghost predicate Valid()
      reads this, device
    {
      && View().Sane() && IsPow2(depth)
      && SqOk(sq, sqTail, sqHead, sqCount, submitted, |answered|, depth)
      && CqOk(cq, cqTail, cqHead, cqCount, devicePhase, hostPhase, answered, consumed, depth)
    }

    constructor (device: Device, depth: nat)
      requires depth >= 2 && IsPow2(depth)
      ensures Valid() && this.device == device && View() == Fifo.Empty(depth, device.State())
    {
      this.device := device;
      this.depth := depth;
      sq, cq := NoEntries(depth), NoEntries(depth);
      sqTail, sqHead, cqTail, cqHead, sqCount, cqCount := 0, 0, 0, 0, 0, 0;
      devicePhase, hostPhase, interrupts := 1, 1, 0;
      submitted, answered, seen, consumed := [], [], [], 0;
      EmptyOk(depth);
    }

    /** The depth check of the source's constructor. */
    static method Create(device: Device, depth: int) returns (r: Option<Engine>)
      ensures r.Some? <==> depth >= 2 && IsPow2(depth)
      ensures r.Some? ==> fresh(r.value) && r.value.Valid() && r.value.device == device && r.value.View() == Fifo.Empty(depth, device.State())
    {
      AcceptedDepths(depth);
      if depth < 2 || And(depth, depth - 1) != 0 {
        return None;
      }
      var e := new Engine(device, depth);
      r := Some(e);
    }

    /** A full submission ring refuses the command. */
    method Submit(command: Command) returns (slot: Option<nat>)
      requires Valid()
      modifies this
      ensures Valid() && (View(), slot) == Fifo.Submit(old(View()), command)
      ensures slot.Some? ==> slot.value < |sq| && sq[slot.value] == Some(command) && submitted == old(submitted) + [command]
      ensures slot.None? <==> |old(submitted)| - |old(answered)| == depth
    {
      if sqCount == depth {
        return None;
      }
      slot := Some(sqTail);
      SqSubmit(sq, sqTail, sqHead, sqCount, submitted, |answered|, depth, command);
      sq := sq[sqTail := Some(command)];
      sqTail := And(sqTail + 1, depth - 1);
      sqCount := sqCount + 1;
      submitted := submitted + [command];
    }

    method RetireHead(ghost n: nat)
      requires SqOk(sq, sqTail, sqHead, sqCount, submitted, n, depth) && IsPow2(depth) && sqCount > 0
      modifies this`sq, this`sqHead, this`sqCount
      ensures SqOk(sq, sqTail, sqHead, sqCount, submitted, n + 1, depth)
    {
      SqRetire(sq, sqTail, sqHead, sqCount, submitted, n, depth);
      sq := sq[sqHead := None];
      sqHead := And(sqHead + 1, depth - 1);
      sqCount := sqCount - 1;
    }

    method PostEntry(c: Completion)
      requires CqOk(cq, cqTail, cqHead, cqCount, devicePhase, hostPhase, answered, consumed, depth) && IsPow2(depth) && cqCount < depth
      requires c.flags % 2 == devicePhase
      modifies this`cq, this`cqTail, this`cqCount, this`devicePhase
      ensures CqOk(cq, cqTail, cqHead, cqCount, devicePhase, hostPhase, answered + [c], consumed, depth)
    {
      CqPost(cq, cqTail, cqHead, cqCount, devicePhase, hostPhase, answered, consumed, depth, c);
      cq := cq[cqTail := Some(c)];
      cqTail := And(cqTail + 1, depth - 1);
      cqCount := cqCount + 1;
      if cqTail == 0 {
        devicePhase := 1 - devicePhase;
      }
    }

    /** The completion with head index and phase tag filled in. */
    method Stamped(completion: Completion) returns (stamped: Completion)
      requires Valid() && sqCount > 0
      ensures stamped == Fifo.Stamp(completion, |answered|, depth) && stamped.flags % 2 == devicePhase
    {
      MaskedNext(sqHead, |answered|, depth);
      StampedPhase(completion, |answered|, depth);
      stamped := completion.(sqHead := And(sqHead + 1, depth - 1), flags := completion.flags - completion.flags % 2 + devicePhase);
    }

    /** Post `completion` for the command at the head and retire that command. */
    method Post(completion: Completion, ghost dma: Dma)
      requires Valid() && sqCount > 0 && cqCount < depth
      modifies this
      ensures Valid() && View() == old(View()).(answered := old(answered) + [Fifo.Stamp(completion, |old(answered)|, depth)], seen := old(seen) + [dma])
    {
      var stamped := Stamped(completion);
      Exchange(stamped);
      answered, seen := answered + [stamped], seen + [dma];
    }

    /** The completion goes into its ring and the command out of its own. */
    method Exchange(c: Completion)
      requires SqOk(sq, sqTail, sqHead, sqCount, submitted, |answered|, depth) && IsPow2(depth) && sqCount > 0
      requires CqOk(cq, cqTail, cqHead, cqCount, devicePhase, hostPhase, answered, consumed, depth) && cqCount < depth
      requires c.flags % 2 == devicePhase
      modifies this`cq, this`cqTail, this`cqCount, this`devicePhase, this`sq, this`sqHead, this`sqCount
      ensures SqOk(sq, sqTail, sqHead, sqCount, submitted, |answered| + 1, depth)
      ensures CqOk(cq, cqTail, cqHead, cqCount, devicePhase, hostPhase, answered + [c], consumed, depth)
    {
      PostEntry(c);
      RetireHead(|answered|);
    }

    /** One turn of the doorbell loop; `corrupt` is the source's ownership corruption error. */
    method ProcessOne(dma: DmaBuffers) returns (corrupt: bool)
      requires Valid() && sqCount > 0 && cqCount < depth
      modifies this, device, dma
      ensures !corrupt && Valid() && (View(), dma.buffers) == Fifo.AnswerOne(old(View()), old(dma.buffers))
    {
      SqRetire(sq, sqTail, sqHead, sqCount, submitted, |answered|, depth);
      var command := sq[sqHead];
      if command.None? {
        return true;
      }
      ghost var before := dma.buffers;
      var completion := device.ExecuteCommand(command.value, dma);
      Post(completion, before);
      return false;
    }

    method ProcessBatch(dma: DmaBuffers, limit: nat, ghost batch: nat) returns (processed: nat, corrupt: bool)
      requires Valid() && batch == Fifo.Min(limit, Fifo.Min(View().Pending(), depth - View().Waiting()))
      modifies this, device, dma
      ensures !corrupt && processed == batch && Valid()
      ensures (View(), dma.buffers) == Fifo.Answer(old(View()), old(dma.buffers), batch)
    {
      ghost var q0, q, d := View(), View(), dma.buffers;
      ghost var goal := Fifo.Answer(q, d, batch);
      processed, corrupt := 0, false;
      while sqCount > 0 && cqCount < depth && processed < limit
        invariant !corrupt && Valid() && processed <= batch && View() == q && dma.buffers == d && Progress(q0, q, processed)
        invariant Fifo.Answer(q, d, batch - processed) == goal
      {
        AnswerUnroll(q, d, batch - processed);
        corrupt := ProcessOne(dma);
        if corrupt {
          return;
        }
        q, d := View(), dma.buffers;
        processed := processed + 1;
      }
    }

    /** Processes exactly as many commands as the budget, the pending commands and the free
        completion slots allow. */
    method RingSubmissionDoorbell(dma: DmaBuffers, budget: Option<int>) returns (processed: nat, corrupt: bool)
      requires Valid()
      modifies this, device, dma
      ensures !corrupt && processed == Fifo.Batch(old(View()), budget)
      ensures var q := old(View());
              var most := if q.Pending() < q.depth - q.Waiting() then q.Pending() else q.depth - q.Waiting();
              && (budget.None? ==> processed == most)
              && (budget.Some? ==> processed == if budget.value < 0 then 0 else if budget.value < most then budget.value else most)
      ensures interrupts == old(interrupts) + if processed > 0 then 1 else 0
      ensures Valid() && (View(), dma.buffers) == Fifo.Doorbell(old(View()), old(dma.buffers), budget)
    {
      Fifo.BatchIs(View(), budget);
      Fifo.AnswerSane(View(), dma.buffers, Fifo.Batch(View(), budget));
      processed, corrupt := ProcessBatch(dma, Fifo.Limit(depth, budget), Fifo.Batch(View(), budget));
      if processed > 0 {
        interrupts := interrupts + 1;
      }
    }

    method ClearSq()
      requires depth >= 2
      modifies this`sq, this`sqTail, this`sqHead, this`sqCount
      ensures SqOk(sq, sqTail, sqHead, sqCount, [], 0, depth)
    {
      EmptyOk(depth);
      sq := NoEntries(depth);
      sqTail, sqHead, sqCount := 0, 0, 0;
    }

    method ClearCq()
      requires depth >= 2
      modifies this`cq, this`cqTail, this`cqHead, this`cqCount, this`devicePhase, this`hostPhase
      ensures CqOk(cq, cqTail, cqHead, cqCount, devicePhase, hostPhase, [], 0, depth)
    {
      EmptyOk(depth);
      cq := NoEntries(depth);
      cqTail, cqHead, cqCount := 0, 0, 0;
      devicePhase, hostPhase := 1, 1;
    }

    /** Both rings are emptied and both phases restart; the number of aborted commands is returned. */
    method Reset() returns (aborted: nat)
      requires Valid()
      modifies this
      ensures Valid() && aborted == old(View()).Pending() && View() == Fifo.Empty(depth, device.State()).(interrupts := old(interrupts))
    {
      aborted := sqCount;
      ClearSq();
      ClearCq();
      submitted, answered, seen, consumed := [], [], [], 0;
    }

    method PopEntry()
      requires CqOk(cq, cqTail, cqHead, cqCount, devicePhase, hostPhase, answered, consumed, depth) && IsPow2(depth) && cqCount > 0
      modifies this`cq, this`cqHead, this`cqCount, this`hostPhase
      ensures CqOk(cq, cqTail, cqHead, cqCount, devicePhase, hostPhase, answered, consumed + 1, depth)
    {
      CqPop(cq, cqTail, cqHead, cqCount, devicePhase, hostPhase, answered, consumed, depth);
      cq := cq[cqHead := None];
      cqHead := And(cqHead + 1, depth - 1);
      cqCount := cqCount - 1;
      if cqHead == 0 {
        hostPhase := 1 - hostPhase;
      }
    }

    /** Pop the next completion. Nothing is returned only when no completion waits. */
    method ConsumeCompletion() returns (c: Option<Completion>)
      requires Valid()
      modifies this
      ensures Valid() && (View(), c) == Fifo.Consume(old(View()))
    {
      if cqCount == 0 {
        return None;
      }
      c := Head();
      if c.None? || c.value.flags % 2 != hostPhase {
        return None;
      }
      PopEntry();
      consumed := consumed + 1;
    }

    /** The entry at the head is the next completion, tagged with the phase the host expects. */
    method Head() returns (c: Option<Completion>)
      requires CqOk(cq, cqTail, cqHead, cqCount, devicePhase, hostPhase, answered, consumed, depth) && IsPow2(depth) && cqCount > 0
      ensures consumed < |answered| && c == Some(answered[consumed]) && c.value.flags % 2 == hostPhase
    {
      CqPop(cq, cqTail, cqHead, cqCount, devicePhase, hostPhase, answered, consumed, depth);
      c := cq[cqHead];
    }
  }
}
