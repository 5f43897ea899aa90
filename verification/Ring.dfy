/** One submission/completion ring pair shared by the Linux driver and the QEMU device: the
    indices and phase tags each side keeps, related to the unbounded history they encode. */
module Ring {
  import opened Geometry

  /** What a descriptor asks for; the transport itself never reads it. */
  datatype Body = Io(opcode: int, flags: int, lba: int, nblocks: int, control: int, dataAddr: int) | Identify | CreateQueue(qid: int, vector: int, depth: int, sqAddr: int, cqAddr: int)

  datatype Command = Command(cid: int, body: Body)

  datatype Cqe = Cqe(cid: int, status: int, phase: int)

  const ZERO_BODY := Io(0, 0, 0, 0, 0, 0)
  const ZERO_COMMAND := Command(0, ZERO_BODY)
  const ZERO_CQE := Cqe(0, 0, 0)

  /** Host memory (sq, cq), the driver's sqTail, cqHead, cqPhase, the device's sqHead, cqTail, devPhase. */
  datatype Rings = Rings(depth: nat, sq: seq<Command>, cq: seq<Cqe>,
                         sqTail: nat, cqHead: nat, cqPhase: int,
                         sqHead: nat, cqTail: nat, devPhase: int)
  {
    predicate WellFormed() {
      depth >= 2 && |sq| == depth && |cq| == depth && sqTail < depth && cqHead < depth && sqHead < depth && cqTail < depth
    }
  }

  /** Zeroed rings on both sides of a fresh queue. */
  function FreshRings(depth: nat): Rings {
    Rings(depth, seq(depth, _ => ZERO_COMMAND), seq(depth, _ => ZERO_CQE), 0, 0, 1, 0, 0, 1)
  }

  function Flip(phase: int): int {
    1 - phase
  }

  /** The driver writes a command and moves its tail. */
  function Publish(r: Rings, cmd: Command): Rings
    requires r.WellFormed()
  {
    r.(sq := r.sq[r.sqTail := cmd], sqTail := (r.sqTail + 1) % r.depth)
  }

  /** The device executes the command at its head and posts a completion. */
  function Process(r: Rings, status: int): Rings
    requires r.WellFormed()
  {
    var cqe := Cqe(r.sq[r.sqHead].cid, status, r.devPhase);
    var tail := (r.cqTail + 1) % r.depth;
    r.(cq := r.cq[r.cqTail := cqe], sqHead := (r.sqHead + 1) % r.depth, cqTail := tail,
       devPhase := if tail == 0 then Flip(r.devPhase) else r.devPhase)
  }

  /** The driver's test for a new completion. */
  predicate PhaseMatches(r: Rings)
    requires r.WellFormed()
  {
    r.cq[r.cqHead].phase == r.cqPhase
  }

  function Advance(r: Rings): Rings
    requires r.WellFormed()
  {
    var head := (r.cqHead + 1) % r.depth;
    r.(cqHead := head, cqPhase := if head == 0 then Flip(r.cqPhase) else r.cqPhase)
  }

  // ----- history

  /** Everything submitted and completed since the last reset, and how much the driver has read. */
  datatype History = History(cmds: seq<Command>, done: seq<Cqe>, read: nat)

  const EMPTY := History([], [], 0)

  /** The phase tag of the n-th completion since reset. */
  function Phase(n: nat, depth: nat): int
    requires depth > 0
  {
    1 - n / depth % 2
  }

  ghost predicate RingsOk(r: Rings, h: History) {
    && r.depth >= 2 && |r.sq| == r.depth && |r.cq| == r.depth
    && h.read <= |h.done| <= |h.cmds| <= h.read + r.depth
    && r.sqTail == |h.cmds| % r.depth
    && r.sqHead == |h.done| % r.depth && r.cqTail == |h.done| % r.depth && r.devPhase == Phase(|h.done|, r.depth)
    && r.cqHead == h.read % r.depth && r.cqPhase == Phase(h.read, r.depth)
    && SqHolds(r.sq, h, r.depth)
    && CqHolds(r.cq, h, r.depth)
    && (forall i :: 0 <= i < |h.done| ==> h.done[i].phase == Phase(i, r.depth) && h.done[i].cid == h.cmds[i].cid)
  }

  /** The submission ring holds every command not yet processed. */
  ghost predicate SqHolds(sq: seq<Command>, h: History, depth: nat)
    requires depth > 0 && |sq| == depth
  {
    forall i :: |h.done| <= i < |h.cmds| ==> sq[i % depth] == h.cmds[i]
  }

  /** The completion ring holds the last `depth` completions; slots never written are zero. */
  ghost predicate CqHolds(cq: seq<Cqe>, h: History, depth: nat)
    requires depth > 0 && |cq| == depth
  {
    && (forall i :: 0 <= i < |h.done| && |h.done| - depth <= i ==> cq[i % depth] == h.done[i])
    && (forall j :: |h.done| <= j < depth ==> cq[j] == ZERO_CQE)
  }

  lemma NextIndex(n: nat, d: nat)
    requires d >= 2
    ensures (n % d + 1) % d == (n + 1) % d
    ensures (n + 1) / d == if (n + 1) % d == 0 then n / d + 1 else n / d
  {
    var q, r := n / d, n % d;
    assert n + 1 == q * d + (r + 1);
    if r + 1 < d {
      DivMod(q, r + 1, d);
      DivMod(0, r + 1, d);
    } else {
      assert n + 1 == (q + 1) * d + 0;
      DivMod(q + 1, 0, d);
      DivMod(1, 0, d);
    }
  }

  lemma NextPhase(n: nat, d: nat)
    requires d >= 2
    ensures Phase(n + 1, d) == if (n + 1) % d == 0 then Flip(Phase(n, d)) else Phase(n, d)
  {
    NextIndex(n, d);
  }

  /** Within a window of `d` numbers the ring slots are distinct. */
  lemma WindowDistinct(i: nat, j: nat, d: nat)
    requires 0 < d && i < j < i + d
    ensures i % d != j % d
  {
    var q := j / d - i / d;
    assert q >= 1 ==> q * d >= d;
    assert q <= 0 ==> q * d <= 0;
    assert j - i == q * d + (j % d - i % d);
  }

  /** One ring wrap flips the phase. */
  lemma WrapPhase(n: nat, d: nat)
    requires d >= 2
    ensures (n + d) % d == n % d && Phase(n + d, d) == Flip(Phase(n, d))
  {
    var q, r := n / d, n % d;
    assert n + d == (q + 1) * d + r;
    DivMod(q + 1, r, d);
  }

  lemma FreshRingsOk(depth: nat)
    requires depth >= 2
    ensures RingsOk(FreshRings(depth), EMPTY)
  {
    assert 0 / depth == 0;
  }

  lemma RingsWellFormed(r: Rings, h: History)
    requires RingsOk(r, h)
    ensures r.WellFormed()
  {
  }

  // ----- steps

  lemma PublishKeeps(r: Rings, h: History, cmd: Command)
    requires RingsOk(r, h) && |h.cmds| < h.read + r.depth
    ensures r.WellFormed() && RingsOk(Publish(r, cmd), h.(cmds := h.cmds + [cmd]))
  {
    var n, d := |h.cmds|, r.depth;
    NextIndex(n, d);
    forall i | |h.done| <= i < n
      ensures i % d != n % d
    {
      WindowDistinct(i, n, d);
    }
  }

  /** The slot the device writes never holds an unread completion. */
  lemma ProcessKeepsUnread(r: Rings, h: History, status: int)
    requires RingsOk(r, h) && |h.done| < |h.cmds|
    ensures r.WellFormed()
    ensures forall i :: h.read <= i < |h.done| ==> Process(r, status).cq[i % r.depth] == h.done[i]
  {
    forall i | h.read <= i < |h.done|
      ensures i % r.depth != r.cqTail
    {
      WindowDistinct(i, |h.done|, r.depth);
    }
  }

  lemma ProcessCq(r: Rings, h: History, cqe: Cqe)
    requires RingsOk(r, h)
    ensures r.WellFormed() && CqHolds(r.cq[r.cqTail := cqe], h.(done := h.done + [cqe]), r.depth)
  {
    var n, d := |h.done|, r.depth;
    forall i | 0 <= i < n && n + 1 - d <= i
      ensures i % d != n % d
    {
      WindowDistinct(i, n, d);
    }
    if n < d { DivMod(0, n, d); }
  }

  /** The completion the device posts next. */
  function NextCqe(h: History, status: int, depth: nat): Cqe
    requires depth > 0 && |h.done| < |h.cmds|
  {
    Cqe(h.cmds[|h.done|].cid, status, Phase(|h.done|, depth))
  }

  lemma ProcessKeeps(r: Rings, h: History, status: int)
    requires RingsOk(r, h) && |h.done| < |h.cmds|
    ensures r.WellFormed()
    ensures RingsOk(Process(r, status), h.(done := h.done + [NextCqe(h, status, r.depth)]))
  {
    var cqe := NextCqe(h, status, r.depth);
    NextIndex(|h.done|, r.depth);
    NextPhase(|h.done|, r.depth);
    assert h.cmds[|h.done|] == r.sq[r.sqHead];
    ProcessCq(r, h, cqe);
  }

  lemma AdvanceKeeps(r: Rings, h: History)
    requires RingsOk(r, h) && h.read < |h.done|
    ensures r.WellFormed() && RingsOk(Advance(r), h.(read := h.read + 1))
  {
    NextIndex(h.read, r.depth);
    NextPhase(h.read, r.depth);
  }

  /** Over any number of wraps the phase test at the driver's head succeeds exactly when the device
      has written a completion there that the driver has not read; the entry is then that one. */
  lemma PhaseTestExact(r: Rings, h: History)
    requires RingsOk(r, h)
    ensures r.WellFormed() && (PhaseMatches(r) <==> h.read < |h.done|)
    ensures h.read < |h.done| ==> r.cq[r.cqHead] == h.done[h.read]
  {
    var n, d := h.read, r.depth;
    if n == |h.done| {
      if n >= d {
        WrapPhase(n - d, d);
        assert r.cq[(n - d) % d] == h.done[n - d];
      } else {
        DivMod(0, n, d);
        assert r.cq[n] == ZERO_CQE;
      }
    }
  }

  // ----- doorbells

  /** Steps from `h` to `t` around a ring. */
  function Distance(h: nat, t: nat, d: nat): nat
    requires h < d && t < d
  {
    if h <= t then t - h else t - h + d
  }

  lemma DistanceNext(h: nat, t: nat, d: nat)
    requires h < d && t < d && h != t
    ensures (h + 1) % d < d && Distance((h + 1) % d, t, d) == Distance(h, t, d) - 1
  {
    Successor(h, d);
  }

  lemma Successor(i: nat, d: nat)
    requires i < d
    ensures (i + 1) % d == if i + 1 == d then 0 else i + 1
  {
    if i + 1 == d {
      DivMod(1, 0, d);
    } else {
      DivMod(0, i + 1, d);
    }
  }

  /** The record of one turn. */
  function Recorded(h: History, status: int, depth: nat): History
    requires depth > 0
  {
    if |h.done| < |h.cmds| then h.(done := h.done + [NextCqe(h, status, depth)]) else h
  }

  lemma {:induction false} WindowDistance(i: nat, n: nat, d: nat)
    requires 2 <= d && n < d
    ensures Distance(i % d, (i + n) % d, d) == n
  {
    if n > 0 {
      WindowDistance(i, n - 1, d);
      NextIndex(i + n - 1, d);
      Successor((i + n - 1) % d, d);
      DistanceGrows(i % d, (i + n - 1) % d, (i + n) % d, d);
    }
  }

  lemma DistanceGrows(h: nat, t: nat, next: nat, d: nat)
    requires h < d && t < d && Distance(h, t, d) + 1 < d && next == if t + 1 == d then 0 else t + 1
    ensures Distance(h, next, d) == Distance(h, t, d) + 1
  {
  }
}
