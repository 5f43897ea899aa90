/** Controller reset: openflash_reset_controller and the admin command path of the Linux driver
    against openflash_reset, the register writes and openflash_execute of the QEMU device. */
module ResetRecovery {
  import opened DeviceQueue
  import opened Ring

  const WORD := 0x1_0000_0000
  const ADDRESS_LIMIT := WORD * WORD

  const SC_SUCCESS := 0
  const SC_INVALID_FIELD := 2

  const ETIMEDOUT := -110
  const EIO := -5
  const EPROTO := -71

  /** The driver's side of a queue: its DMA memory and indices. `results` is the result field of
      the completion entries. */
  datatype HostQueue = HostQueue(depth: nat, sqDma: int, cqDma: int, sq: seq<Command>, cq: seq<Cqe>, results: seq<int>,
                                 sqTail: nat, cqHead: nat, cqPhase: int)
  {
    predicate WellFormed() {
      depth >= 2 && |sq| == depth && |cq| == depth && |results| == depth
      && 0 <= sqDma < ADDRESS_LIMIT && 0 <= cqDma < ADDRESS_LIMIT
    }
  }

  function RingsOf(h: HostQueue, d: DevQueue): Rings {
    Rings(h.depth, h.sq, h.cq, h.sqTail, h.cqHead, h.cqPhase, d.sqHead, d.cqTail, d.phase)
  }

  /** The device works on the memory and depth the driver gave it. */
  predicate Linked(h: HostQueue, d: DevQueue) {
    d.enabled && d.depth == h.depth && d.sqAddr == h.sqDma && d.cqAddr == h.cqDma
  }

  /** Nothing in flight: the driver's tail, head and phase are the device's head, tail and phase. */
  predicate Agree(h: HostQueue, d: DevQueue) {
    h.sqTail == d.sqHead && h.cqHead == d.cqTail && h.cqPhase == d.phase
  }

  predicate Quiet(h: History) {
    h.read == |h.done| == |h.cmds|
  }

  lemma QuietAgree(q: HostQueue, d: DevQueue, h: History)
    requires RingsOk(RingsOf(q, d), h) && Quiet(h)
    ensures Agree(q, d)
  {
  }

  function LowWord(a: int): int {
    a % WORD
  }

  function HighWord(a: int): int {
    a / WORD
  }

  function SetLow(a: int, v: int): int {
    a / WORD * WORD + v
  }

  function SetHigh(a: int, v: int): int {
    a % WORD + v * WORD
  }

  /** Writing both halves of an address stores it, whatever the register held before. */
  lemma TwoWrites(before: int, a: int)
    requires 0 <= a < ADDRESS_LIMIT
    ensures SetHigh(SetLow(before, LowWord(a)), HighWord(a)) == a
  {
  }

  /** Rings the device lets an I/O queue be created on. */
  predicate IoRingsOk(q: HostQueue) {
    q.depth <= MAX_DEPTH && q.sqDma != 0 && q.cqDma != 0
  }

  /** openflash_execute for the admin opcodes: the status, the result and the new I/O queue. */
  function ExecuteAdmin(body: Body, io: DevQueue, capacity: int): (int, int, DevQueue) {
    match body
    case Identify => (SC_SUCCESS, capacity, io)
    case CreateQueue(qid, vector, depth, sqAddr, cqAddr) =>
      if Creatable(qid, vector, depth, sqAddr, cqAddr) then (SC_SUCCESS, qid, NewQueue(vector, depth, sqAddr, cqAddr))
      else (SC_INVALID_FIELD, 0, io)
    // no block command goes to this queue; a slot never written names no blocks
    case Io(_, _, _, _, _, _) => (SC_INVALID_FIELD, 0, io)
  }

  // ----- the device loop on the admin queue

  /** The admin queue on both sides, the I/O queue the commands act on, and the record. */
  datatype Admin = Admin(admin: HostQueue, dev0: DevQueue, dev1: DevQueue, hist: History)

  predicate Sound(a: Admin) {
    && a.dev0.depth == a.admin.depth >= 2 && |a.admin.sq| == |a.admin.cq| == |a.admin.results| == a.admin.depth
    && a.dev0.sqHead < a.admin.depth && a.dev0.cqTail < a.admin.depth
  }

  /** One turn, whatever the ring holds; the record follows while a published command is waiting. */
  function Turn(a: Admin, capacity: int): (u: Admin)
    requires Sound(a)
    ensures Sound(u) && u.admin == a.admin.(cq := u.admin.cq, results := u.admin.results)
    ensures u.dev0.sqHead == (a.dev0.sqHead + 1) % a.admin.depth
  {
    var cmd := a.admin.sq[a.dev0.sqHead];
    var (status, result, queue) := ExecuteAdmin(cmd.body, a.dev1, capacity);
    var tail := (a.dev0.cqTail + 1) % a.dev0.depth;
    Admin(a.admin.(cq := a.admin.cq[a.dev0.cqTail := Cqe(cmd.cid, status, a.dev0.phase)], results := a.admin.results[a.dev0.cqTail := result]),
          a.dev0.(sqHead := (a.dev0.sqHead + 1) % a.dev0.depth, cqTail := tail, phase := if tail == 0 then Flip(a.dev0.phase) else a.dev0.phase),
          queue, Recorded(a.hist, status, a.admin.depth))
  }

  function Turns(a: Admin, capacity: int, k: nat): (u: Admin)
    requires Sound(a)
    ensures Sound(u)
  {
    if k == 0 then a else Turn(Turns(a, capacity, k - 1), capacity)
  }

  lemma {:induction false} TurnsFrame(a: Admin, capacity: int, k: nat)
    requires Sound(a)
    ensures var u := Turns(a, capacity, k); u.admin == a.admin.(cq := u.admin.cq, results := u.admin.results)
  {
    if k > 0 { TurnsFrame(a, capacity, k - 1); }
  }

  /** The two sides are linked and their rings hold the record. */
  ghost predicate Live(a: Admin) {
    a.admin.WellFormed() && Linked(a.admin, a.dev0) && RingsOk(RingsOf(a.admin, a.dev0), a.hist)
  }

  lemma LiveSound(a: Admin)
    requires Live(a)
    ensures Sound(a) && RingsOf(a.admin, a.dev0).WellFormed()
  {
    RingsWellFormed(RingsOf(a.admin, a.dev0), a.hist);
  }

  /** While a published command is waiting, a turn answers it. */
  lemma TurnLive(a: Admin, capacity: int)
    requires Live(a) && |a.hist.done| < |a.hist.cmds|
    ensures Sound(a)
    ensures var (status, result, queue) := ExecuteAdmin(a.hist.cmds[|a.hist.done|].body, a.dev1, capacity);
            var u := Turn(a, capacity);
            && Live(u) && u.dev1 == queue && u.hist == a.hist.(done := a.hist.done + [NextCqe(a.hist, status, a.admin.depth)])
            && u.admin.results == a.admin.results[|a.hist.done| % a.admin.depth := result]
  {
    LiveSound(a);
    var r := RingsOf(a.admin, a.dev0);
    assert a.admin.sq[a.dev0.sqHead] == a.hist.cmds[|a.hist.done|];
    var status := ExecuteAdmin(a.hist.cmds[|a.hist.done|].body, a.dev1, capacity).0;
    ProcessKeeps(r, a.hist, status);
    var u := Turn(a, capacity);
    assert RingsOf(u.admin, u.dev0) == Process(r, status);
  }

  lemma {:induction false} TurnsLive(a: Admin, capacity: int, k: nat)
    requires Live(a) && |a.hist.done| + k <= |a.hist.cmds|
    ensures Sound(a)
    ensures var u := Turns(a, capacity, k);
            Live(u) && u.hist == a.hist.(done := u.hist.done) && |u.hist.done| == |a.hist.done| + k
  {
    LiveSound(a);
    if k > 0 {
      TurnsLive(a, capacity, k - 1);
      TurnLive(Turns(a, capacity, k - 1), capacity);
    }
  }

  lemma OneWaiting(a: Admin, capacity: int)
    requires Live(a) && |a.hist.cmds| == |a.hist.done| + 1
    ensures Sound(a)
    ensures var u := Turns(a, capacity, 1); Answered(a.hist, u.hist, a.dev1, u.dev1, u.admin.results, capacity, a.admin.depth)
  {
    TurnLive(a, capacity);
    assert Turns(a, capacity, 0) == a;
  }

  /** Ringing with the driver's own tail answers every published command. */
  lemma WaitingTurns(a: Admin, capacity: int, newTail: nat)
    requires Live(a) && Sound(a) && newTail == a.admin.sqTail < a.admin.depth && |a.hist.cmds| - |a.hist.done| < a.admin.depth
    ensures var u := Turns(a, capacity, Distance(a.dev0.sqHead, newTail, a.admin.depth));
            && Live(u) && |u.hist.done| == |u.hist.cmds|
            && Answered(a.hist, u.hist, a.dev1, u.dev1, u.admin.results, capacity, a.admin.depth)
  {
    var k := |a.hist.cmds| - |a.hist.done|;
    WindowDistance(|a.hist.done|, k, a.admin.depth);
    TurnsLive(a, capacity, k);
    if k == 1 { OneWaiting(a, capacity); }
    assert k == 0 ==> Turns(a, capacity, 0) == a;
  }

  class Controller {
    // driver
    var admin: HostQueue
    var io: HostQueue
    var nextCid: nat
    var adminPending: bool
    var adminCid: int
    var adminStatus: int
    var adminResult: int
    var adminError: int
    // device
    var dev0: DevQueue
    var dev1: DevQueue
    var ready: bool
    var capacity: int
    // record of the admin queue
    ghost var hist: History

    ghost predicate HostsOk()
      reads this
    {
      admin.WellFormed() && io.WellFormed() && nextCid < 0x10000
    }

    ghost predicate AdminLive()
      reads this
    {
      HostsOk() && ready && Live(View())
    }

    // ----- device registers

    method DeviceReset()
      modifies this`dev0, this`dev1, this`ready
      ensures dev0 == ZERO_QUEUE.(phase := 1) && dev1 == ZERO_QUEUE && !ready
    {
      dev0, dev1 := ZERO_QUEUE, ZERO_QUEUE;
      dev0 := dev0.(phase := 1);
      ready := false;
    }

    method WriteAdminRegisters(sqAddr: int, cqAddr: int, depth: int)
      requires 0 <= sqAddr < ADDRESS_LIMIT && 0 <= cqAddr < ADDRESS_LIMIT
      modifies this`dev0
      ensures var valid := 2 <= depth <= MAX_DEPTH;
              dev0 == old(dev0).(sqAddr := sqAddr, cqAddr := cqAddr, depth := if valid then depth else 0, enabled := valid)
    {
      TwoWrites(dev0.sqAddr, sqAddr);
      TwoWrites(dev0.cqAddr, cqAddr);
      dev0 := dev0.(sqAddr := SetLow(dev0.sqAddr, LowWord(sqAddr)));
      dev0 := dev0.(sqAddr := SetHigh(dev0.sqAddr, HighWord(sqAddr)));
      dev0 := dev0.(cqAddr := SetLow(dev0.cqAddr, LowWord(cqAddr)));
      dev0 := dev0.(cqAddr := SetHigh(dev0.cqAddr, HighWord(cqAddr)));
      dev0 := dev0.(depth := if 2 <= depth <= MAX_DEPTH then depth else 0);
      dev0 := dev0.(enabled := dev0.depth != 0);
    }

    // ----- device processing

    ghost function View(): Admin
      reads this
    {
      Admin(admin, dev0, dev1, hist)
    }

    method ProcessOne()
      requires Sound(View())
      modifies this`dev0, this`dev1, this`admin, this`hist
      ensures View() == Turn(old(View()), capacity)
    {
      var cmd := admin.sq[dev0.sqHead];
      var (status, result, queue) := ExecuteAdmin(cmd.body, dev1, capacity);
      dev1 := queue;
      admin := admin.(cq := admin.cq[dev0.cqTail := Cqe(cmd.cid, status, dev0.phase)], results := admin.results[dev0.cqTail := result]);
      var tail := (dev0.cqTail + 1) % dev0.depth;
      dev0 := dev0.(sqHead := (dev0.sqHead + 1) % dev0.depth, cqTail := tail, phase := if tail == 0 then Flip(dev0.phase) else dev0.phase);
      hist := Recorded(hist, status, admin.depth);
    }

    /** openflash_process_sq on the admin queue for any doorbell value: ignored if the queue is not
        ready or not enabled or the value is out of range, otherwise as many turns as the ring
        distance to it. The driver's own tail makes the device answer every published command. */
    method AdminDoorbell(newTail: nat)
      requires HostsOk() && (ready && dev0.enabled ==> AdminLive())
      modifies this`dev0, this`dev1, this`admin, this`hist
      ensures HostsOk() && admin == old(admin).(cq := admin.cq, results := admin.results)
      ensures if ready && old(dev0.enabled) && newTail < admin.depth then
                Sound(old(View())) && View() == Turns(old(View()), capacity, Distance(old(dev0.sqHead), newTail, admin.depth))
              else View() == old(View())
      ensures ready && old(dev0.enabled) && newTail == admin.sqTail && |old(hist.cmds)| - |old(hist.done)| < admin.depth ==>
                AdminLive() && |hist.done| == |hist.cmds| && Answered(old(hist), hist, old(dev1), dev1, admin.results, capacity, admin.depth)
    {
      ghost var a := View();
      if !ready || !dev0.enabled || dev0.depth == 0 || newTail >= dev0.depth {
        TailInRange(RingsOf(admin, dev0), hist, ready && dev0.enabled);
        return;
      }
      LiveSound(a);
      ghost var k := Distance(dev0.sqHead, newTail, admin.depth);
      ProcessTo(newTail);
      TurnsFrame(a, capacity, k);
      if newTail == admin.sqTail && |a.hist.cmds| - |a.hist.done| < admin.depth {
        WaitingTurns(a, capacity, newTail);
      }
    }

    method ProcessTo(newTail: nat)
      requires Sound(View()) && newTail < admin.depth
      modifies this`dev0, this`dev1, this`admin, this`hist
      ensures View() == Turns(old(View()), capacity, Distance(old(dev0.sqHead), newTail, old(admin.depth)))
    {
      ghost var a, k := View(), Distance(dev0.sqHead, newTail, admin.depth);
      ghost var n := 0;
      while dev0.sqHead != newTail
        invariant n <= k && View() == Turns(a, capacity, n) && admin.depth == a.admin.depth
        invariant dev0.sqHead < admin.depth && Distance(dev0.sqHead, newTail, admin.depth) == k - n
        decreases k - n
      {
        DistanceNext(dev0.sqHead, newTail, admin.depth);
        ProcessOne();
        n := n + 1;
      }
    }

    // ----- driver

    /** Hand a completion to the command waiting for it; any other completion is an error for it. */
    method Settle(cqe: Cqe, result: int)
      modifies this`adminPending, this`adminStatus, this`adminResult, this`adminError
      ensures !adminPending
      ensures old(adminPending) && cqe.cid == adminCid ==> adminError == 0 && adminStatus == cqe.status && adminResult == result
      ensures old(adminPending) && cqe.cid != adminCid ==> adminError == EIO && adminStatus == old(adminStatus) && adminResult == old(adminResult)
      ensures !old(adminPending) ==> adminError == old(adminError) && adminStatus == old(adminStatus) && adminResult == old(adminResult)
    {
      if adminPending {
        if cqe.cid == adminCid {
          adminStatus, adminResult, adminError := cqe.status, result, 0;
        } else {
          adminError := EIO;
        }
        adminPending := false;
      }
    }

    /** One turn of openflash_drain_admin_cq: settle the pending command, if any, and move the head. */
    method DrainOne()
      requires AdminLive() && hist.read < |hist.done|
      modifies this`admin, this`hist, this`adminPending, this`adminStatus, this`adminResult, this`adminError
      ensures AdminLive() && hist == old(hist).(read := old(hist.read) + 1) && !adminPending
      ensures admin == old(admin).(cqHead := admin.cqHead, cqPhase := admin.cqPhase)
      ensures old(adminPending) && old(hist.done[hist.read].cid) == adminCid ==>
                adminError == 0 && adminStatus == old(hist.done[hist.read].status)
                && adminResult == old(admin.results[hist.read % admin.depth])
      ensures old(adminPending) && old(hist.done[hist.read].cid) != adminCid ==> adminError == EIO
      ensures !old(adminPending) ==> adminError == old(adminError) && adminStatus == old(adminStatus) && adminResult == old(adminResult)
    {
      ghost var r := RingsOf(admin, dev0);
      PhaseTestExact(r, hist);
      Settle(admin.cq[admin.cqHead], admin.results[admin.cqHead]);
      AdvanceKeeps(r, hist);
      var head := (admin.cqHead + 1) % admin.depth;
      admin := admin.(cqHead := head, cqPhase := if head == 0 then Flip(admin.cqPhase) else admin.cqPhase);
      assert RingsOf(admin, dev0) == Advance(r);
      hist := hist.(read := hist.read + 1);
    }

    /** openflash_irq: drain the admin completion ring. */
    method AdminIrq()
      requires HostsOk() && (ready && dev0.enabled ==> AdminLive())
      requires ready && !dev0.enabled ==> NothingPosted(admin)
      modifies this`admin, this`hist, this`adminPending, this`adminStatus, this`adminResult, this`adminError
      ensures HostsOk()
      ensures if ready && dev0.enabled then AdminLive() && hist == old(hist).(read := |old(hist.done)|)
              else admin == old(admin) && hist == old(hist) && adminPending == old(adminPending)
      ensures admin == old(admin).(cqHead := admin.cqHead, cqPhase := admin.cqPhase)
      ensures ready && dev0.enabled && old(hist.read) + 1 == |old(hist.done)| && old(adminPending) && old(hist.done[hist.read].cid) == adminCid ==>
                !adminPending && adminError == 0 && adminStatus == old(hist.done[hist.read].status)
                && adminResult == old(admin.results[hist.read % admin.depth])
    {
      if !ready {
        return;
      }
      if dev0.enabled { PhaseTestExact(RingsOf(admin, dev0), hist); }
      if admin.cq[admin.cqHead].phase != admin.cqPhase {
        return;
      }
      while admin.cq[admin.cqHead].phase == admin.cqPhase
        invariant AdminLive() && old(hist.read) <= hist.read <= |hist.done| && hist == old(hist).(read := hist.read)
        invariant admin == old(admin).(cqHead := admin.cqHead, cqPhase := admin.cqPhase) && admin.cqHead < admin.depth
        invariant admin.cq[admin.cqHead].phase == admin.cqPhase <==> hist.read < |hist.done|
        invariant hist.read == old(hist.read) ==> adminPending == old(adminPending)
        invariant hist.read == old(hist.read) + 1 && old(adminPending) && old(hist.done[hist.read].cid) == adminCid ==>
                    !adminPending && adminError == 0 && adminStatus == old(hist.done[hist.read].status)
                    && adminResult == old(admin.results[hist.read % admin.depth])
        decreases |hist.done| - hist.read
      {
        DrainOne();
        PhaseTestExact(RingsOf(admin, dev0), hist);
      }
    }

    /** Write the command at the tail and move the tail. */
    method PublishAdmin(body: Body) returns (cid: int)
      requires HostsOk() && admin.sqTail < admin.depth
      requires ready && dev0.enabled ==> AdminLive() && Quiet(hist)
      modifies this`admin, this`hist, this`nextCid, this`adminPending, this`adminCid, this`adminError
      ensures HostsOk() && adminPending && adminCid == cid == nextCid && 1 <= cid < 0x10000 && cid != old(nextCid)
      ensures admin == old(admin).(sq := admin.sq, sqTail := (old(admin.sqTail) + 1) % admin.depth)
      ensures ready && dev0.enabled ==> AdminLive() && hist == old(hist).(cmds := old(hist.cmds) + [Command(cid, body)])
    {
      ghost var r := RingsOf(admin, dev0);
      cid := (nextCid + 1) % 0x10000;
      if cid == 0 {
        cid := 1;
      }
      nextCid := cid;
      adminCid, adminError, adminPending := cid, 0, true;
      var cmd := Command(cid, body);
      admin := admin.(sq := admin.sq[admin.sqTail := cmd], sqTail := (admin.sqTail + 1) % admin.depth);
      if ready && dev0.enabled {
        PublishKeeps(r, hist, cmd);
        assert RingsOf(admin, dev0) == Publish(r, cmd);
        hist := hist.(cmds := hist.cmds + [cmd]);
      }
    }

    /** openflash_admin_command against a device that answers within its doorbell: the outcome is
        that of executing the command, or a timeout if the device does not serve the queue. */
    method AdminCommand(body: Body) returns (ret: int, result: int)
      requires HostsOk() && admin.sqTail < admin.depth
      requires ready && dev0.enabled ==> AdminLive() && Quiet(hist)
      requires ready && !dev0.enabled ==> NothingPosted(admin)
      modifies this`admin, this`hist, this`nextCid, this`adminPending, this`adminCid, this`adminStatus, this`adminResult, this`adminError, this`dev0, this`dev1
      ensures HostsOk() && ready == old(ready)
      ensures if ready && old(dev0.enabled) then
                var (status, value, queue) := ExecuteAdmin(body, old(dev1), capacity);
                && AdminLive() && Quiet(hist) && |hist.cmds| == |old(hist.cmds)| + 1 && dev1 == queue
                && ret == (if status == SC_SUCCESS then 0 else EIO) && (ret == 0 ==> result == value)
              else ret == ETIMEDOUT && dev0 == old(dev0) && dev1 == old(dev1)
      ensures admin == old(admin).(sq := admin.sq, cq := admin.cq, results := admin.results, sqTail := admin.sqTail, cqHead := admin.cqHead, cqPhase := admin.cqPhase)
    {
      var cid := PublishAdmin(body);
      AdminDoorbell(admin.sqTail);
      AdminIrq();
      ret, result := 0, 0;
      if adminPending {
        adminPending := false;
        return ETIMEDOUT, 0;
      }
      if adminError != 0 {
        return adminError, 0;
      }
      if adminStatus != SC_SUCCESS {
        return EIO, 0;
      }
      result := adminResult;
    }

    method CreateIoQueue() returns (ret: int)
      requires HostsOk() && admin.sqTail < admin.depth
      requires ready && dev0.enabled ==> AdminLive() && Quiet(hist)
      requires ready && !dev0.enabled ==> NothingPosted(admin)
      modifies this`admin, this`hist, this`nextCid, this`adminPending, this`adminCid, this`adminStatus, this`adminResult, this`adminError, this`dev0, this`dev1
      ensures HostsOk() && ready == old(ready) && admin.depth == old(admin.depth)
      ensures ret == if !ready || !old(dev0.enabled) then ETIMEDOUT else if IoRingsOk(io) then 0 else EIO
      ensures ret == 0 ==> AdminLive() && Quiet(hist) && |hist.cmds| == |old(hist.cmds)| + 1
                           && dev1 == NewQueue(1, io.depth, io.sqDma, io.cqDma)
    {
      var result: int;
      ret, result := AdminCommand(CreateQueue(1, 1, io.depth, io.sqDma, io.cqDma));
      if ret == 0 && result != 1 {
        ret := EPROTO;
      }
    }

    /** openflash_reset_controller, whatever state the two sides were in before. It succeeds exactly
        when the device supports the depths and the I/O rings have addresses; then both queues are linked, nothing is in flight on
        either, and the I/O rings are exactly those of a fresh queue. */
    method ResetController() returns (ret: int)
      requires HostsOk()
      modifies this
      ensures HostsOk() && admin.depth == old(admin.depth) && io.depth == old(io.depth) && io.sqDma == old(io.sqDma) && io.cqDma == old(io.cqDma)
      ensures ret == if admin.depth > MAX_DEPTH then ETIMEDOUT else if !IoRingsOk(io) then EIO else 0
      ensures ret == 0 ==> AdminLive() && Quiet(hist) && Agree(admin, dev0)
      ensures ret == 0 ==> Linked(io, dev1) && Agree(io, dev1) && RingsOf(io, dev1) == FreshRings(io.depth)
    {
      admin := admin.(sq := seq(admin.depth, _ => ZERO_COMMAND));
      admin := admin.(cq := seq(admin.depth, _ => ZERO_CQE), results := seq(admin.depth, _ => 0));
      io := io.(sq := seq(io.depth, _ => ZERO_COMMAND));
      io := io.(cq := seq(io.depth, _ => ZERO_CQE), results := seq(io.depth, _ => 0));
      admin := admin.(sqTail := 0, cqHead := 0, cqPhase := 1);
      io := io.(sqTail := 0, cqHead := 0, cqPhase := 1);
      DeviceReset();
      WriteAdminRegisters(admin.sqDma, admin.cqDma, admin.depth);
      ready := true;
      hist := EMPTY;
      FreshRingsOk(admin.depth);
      assert RingsOf(admin, dev0) == FreshRings(admin.depth);
      ret := CreateIoQueue();
      if ret == 0 {
        QuietAgree(admin, dev0, hist);
        assert RingsOf(io, dev1) == FreshRings(io.depth);
      }
    }
  }

  /** The entry at the driver's head does not look like a new completion. */
  predicate NothingPosted(q: HostQueue) {
    q.cqHead < |q.cq| && q.cq[q.cqHead].phase != q.cqPhase
  }

  /** Nothing if no command was waiting, what its execution did if one was; if more, that all are done. */
  ghost predicate Answered(h0: History, h: History, io0: DevQueue, io: DevQueue, results: seq<int>, capacity: int, depth: nat)
  {
    && h.cmds == h0.cmds && h.read == h0.read
    && (|h0.cmds| == |h0.done| ==> h == h0 && io == io0)
    && (|h0.cmds| == |h0.done| + 1 && depth > 0 && |results| == depth ==>
          var (status, result, queue) := ExecuteAdmin(h0.cmds[|h0.done|].body, io0, capacity);
          && h.done == h0.done + [NextCqe(h0, status, depth)] && io == queue
          && results[|h0.done| % depth] == result)
  }

  lemma TailInRange(r: Rings, h: History, live: bool)
    requires live ==> RingsOk(r, h)
    ensures live ==> r.sqTail < r.depth
  {
  }
}
