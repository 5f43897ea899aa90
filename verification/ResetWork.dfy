/** openflash_reset_work: the failure sweep of the I/O queue followed by the controller reset. The
    I/O rings are one piece of memory, seen by the queue code (IoDriver) and by the reset code
    (ResetRecovery). */
module ResetWork {
  import opened Ring
  import opened HostProtocol
  import opened HostRuns
  import opened IoDriver
  import opened ResetRecovery
  import opened DeviceQueue

  /** The reset step of the protocol, as the state the code leaves behind. */
  lemma ResetReached(s: Host)
    requires Reached(s) && s.sweep == At(|s.slots|) && s.drain.Idle?
    ensures Shape(s) && Enabled(s, Reset) && Reached(Next(s, Reset))
    ensures Next(s, Reset) == s.(rings := FreshRings(s.Depth()), hist := EMPTY, reqs := [], sweep := Off)
  {
    ReachedShape(s);
    ReachedNext(s, Reset);
  }

  /** What the reset changes of a swept queue. */
  function Restarted(s: Host, rings: Rings): Host {
    s.(rings := rings, hist := EMPTY, reqs := [], sweep := Off)
  }

  /** A swept queue with fresh rings is where the protocol's reset step leads. */
  lemma RestartedIsReset(s: Host, view: Host)
    requires Reached(s) && s.sweep == At(|s.slots|) && s.drain.Idle? && view == Restarted(s, FreshRings(s.Depth()))
    ensures Shape(s) && Enabled(s, Reset) && view == Next(s, Reset) && Reached(view)
  {
    ResetReached(s);
  }

  method ZeroCommands(a: array<Command>)
    modifies a
    ensures a[..] == seq(a.Length, _ => ZERO_COMMAND)
  {
    forall i | 0 <= i < a.Length {
      a[i] := ZERO_COMMAND;
    }
  }

  method ZeroCompletions(a: array<Cqe>)
    modifies a
    ensures a[..] == seq(a.Length, _ => ZERO_CQE)
  {
    forall i | 0 <= i < a.Length {
      a[i] := ZERO_CQE;
    }
  }

  /** The driver's indices go to the start, the device's registers are what the device has now, and
      the record starts over. */
  method SetIndices(queue: IoQueue, d: DevQueue, ghost s: Host)
    requires s == queue.View(Idle, At(queue.requests.Length))
    modifies queue`sqTail, queue`cqHead, queue`cqPhase, queue`sqHead, queue`cqTail, queue`devPhase, queue`hist, queue`reqs
    ensures queue.View(Idle, Off) ==
              Restarted(s, s.rings.(sqTail := 0, cqHead := 0, cqPhase := 1, sqHead := d.sqHead, cqTail := d.cqTail, devPhase := d.phase))
  {
    queue.sqTail, queue.cqHead, queue.cqPhase := 0, 0, 1;
    queue.sqHead, queue.cqTail, queue.devPhase := d.sqHead, d.cqTail, d.phase;
    queue.hist, queue.reqs := EMPTY, [];
  }

  /** The I/O queue's share of the reset: rings zeroed, then indices and registers. */
  method RestartQueue(queue: IoQueue, d: DevQueue, ghost s: Host)
    requires s == queue.View(Idle, At(queue.requests.Length))
    requires queue.sqCmds.Length == queue.cqes.Length == queue.depth
    modifies queue`sqTail, queue`cqHead, queue`cqPhase, queue`sqHead, queue`cqTail, queue`devPhase, queue`hist, queue`reqs, queue.sqCmds, queue.cqes
    ensures queue.View(Idle, Off) == Restarted(s, FreshRings(queue.depth).(sqHead := d.sqHead, cqTail := d.cqTail, devPhase := d.phase))
  {
    ZeroCommands(queue.sqCmds);
    ZeroCompletions(queue.cqes);
    ghost var r := FreshRings(queue.depth);
    SetIndices(queue, d, s.(rings := s.rings.(sq := r.sq, cq := r.cq)));
  }

  method SweepQueue(queue: IoQueue) returns (ghost swept: Host)
    requires queue.Valid(Off) && queue.depth >= 2
    modifies queue`live, queue`unmapped, queue`ended, queue`reports, queue`busy, queue.requests
    ensures Reached(swept) && swept == queue.View(Idle, At(queue.requests.Length)) && queue.RingsView().WellFormed()
    ensures swept.busy == {} && swept.live == multiset{} && swept.ended == multiset(swept.accepted) && swept.unmapped == swept.mappedEver
    ensures TimedOut(old(queue.reports), swept.reports)
  {
    queue.FailIoRequests();
    swept := queue.View(Idle, At(queue.requests.Length));
    ReachedShape(swept);
  }

  /** With the block layer frozen and the handler idle, whether or not the device has answered every
      command: the sweep ends every request; recovery succeeds exactly when the device accepts the
      rings; and then the queue is in the state of the protocol's reset step, with the device's
      registers where the controller says. */
  method ResetQueue(queue: IoQueue, ctl: Controller) returns (ret: int, ghost swept: Host)
    requires queue.Valid(Off) && queue.depth >= 2
    requires ctl.HostsOk() && ctl.io.depth == queue.depth
    modifies queue, queue.sqCmds, queue.cqes, queue.requests, ctl
    ensures ret == if ctl.admin.depth > MAX_DEPTH then ETIMEDOUT else if !IoRingsOk(ctl.io) then EIO else 0
    ensures Reached(swept) && Shape(swept) && Enabled(swept, Reset) && swept.accepted == old(queue.accepted)
    ensures swept.busy == {} && swept.live == multiset{} && swept.ended == multiset(swept.accepted) && swept.unmapped == swept.mappedEver
    ensures TimedOut(old(queue.reports), swept.reports)
    ensures ret == 0 ==>
              && queue.Valid(Off) && queue.View(Idle, Off) == Next(swept, Reset)
              && queue.RingsView() == RingsOf(ctl.io, ctl.dev1) && Linked(ctl.io, ctl.dev1) && Agree(ctl.io, ctl.dev1)
  {
    swept := SweepQueue(queue);
    RestartedIsReset(swept, Restarted(swept, FreshRings(swept.Depth())));
    ret := ctl.ResetController();
    RestartQueue(queue, ctl.dev1, swept);
  }
}
