/** The I/O queue code itself: openflash_queue_rq, openflash_io_irq and openflash_fail_io_requests
    of the Linux driver and openflash_process_sq of the QEMU device, each run without interference
    and proved against the steps of HostProtocol. */
module IoDriver {
  import opened Common
  import Abi
  import opened Ring
  import opened HostProtocol
  import opened HostRuns

  datatype ReqOp = Read | Write | FlushCache | Discard | Other

  /** A block-layer request: position in 512-byte sectors, length in bytes, and the DMA segments
      its pages would map to. */
  datatype BlockRequest = BlockRequest(op: ReqOp, pos: nat, bytes: nat, fua: bool, segs: seq<Segment>)

  const SECTORS_PER_BLOCK := 8

  function Opcode(op: ReqOp): int {
    match op
    case Read => 1
    case Write => 2
    case FlushCache => 3
    case Discard => 4
    case Other => 0
  }

  const FLAG_FUA := 1
  const FLAG_SGL := 2

  /** The descriptor when the FUA capability is tested: nothing but what to do where. */
  function Draft(rq: BlockRequest): Body {
    Io(Opcode(rq.op), 0, rq.pos / SECTORS_PER_BLOCK, rq.bytes / Abi.BLOCK_SIZE, 0, 0)
  }

  /** The descriptor as published, with `n` segments mapped in the list at `list`. Mapped segments
      replace the flags, FUA included. */
  function BodyOf(rq: BlockRequest, list: int, n: nat): Body {
    var flags := if n > 0 then FLAG_SGL else if rq.fua then FLAG_FUA else 0;
    Io(Opcode(rq.op), flags, rq.pos / SECTORS_PER_BLOCK, rq.bytes / Abi.BLOCK_SIZE, n, if n > 0 then list else 0)
  }

  predicate CarriesData(op: ReqOp) {
    op.Read? || op.Write?
  }

  class IoQueue {
    const depth: nat
    // DMA address of each tag's segment list
    const lists: nat -> int
    // host memory
    const sqCmds: array<Command>
    const cqes: array<Cqe>
    // driver
    const requests: array<Slot>
    var sqTail: nat
    var cqHead: nat
    var cqPhase: int
    // device
    var sqHead: nat
    var cqTail: nat
    var devPhase: int
    // block layer, DMA API and record
    ghost var hist: History
    ghost var reqs: seq<nat>
    ghost var busy: set<nat>
    ghost var live: multiset<Segment>
    ghost var mappedEver: multiset<Segment>
    ghost var unmapped: multiset<Segment>
    ghost var accepted: set<nat>
    ghost var ended: multiset<nat>
    ghost var reports: map<nat, BlkStatus>

    ghost function View(drain: Drain, sweep: Sweep): Host
      reads this, sqCmds, cqes, requests
    {
      Host(RingsView(), hist, reqs, requests[..], drain, sweep, busy, live, mappedEver, unmapped, accepted, ended, reports)
    }

    ghost function RingsView(): Rings
      reads this, sqCmds, cqes
    {
      Rings(depth, sqCmds[..], cqes[..], sqTail, cqHead, cqPhase, sqHead, cqTail, devPhase)
    }

    ghost predicate Valid(sweep: Sweep)
      reads this, sqCmds, cqes, requests
    {
      Reached(View(Idle, sweep))
    }

    constructor (depth: nat, lists: nat -> int)
      requires depth >= 2
      ensures View(Idle, Off) == FreshHost(depth) && Valid(Off) && this.lists == lists
      ensures fresh(sqCmds) && fresh(cqes) && fresh(requests)
    {
      this.depth, this.lists := depth, lists;
      sqCmds := new Command[depth](_ => ZERO_COMMAND);
      cqes := new Cqe[depth](_ => ZERO_CQE);
      requests := new Slot[depth - 1](_ => EmptySlot());
      sqTail, cqHead, cqPhase := 0, 0, 1;
      sqHead, cqTail, devPhase := 0, 0, 1;
      hist, reqs, busy := EMPTY, [], {};
      live, mappedEver, unmapped, accepted, ended, reports := multiset{}, multiset{}, multiset{}, {}, multiset{}, map[];
      new;
      assert sqCmds[..] == FreshHost(depth).rings.sq;
      assert cqes[..] == FreshHost(depth).rings.cq;
      assert requests[..] == FreshHost(depth).slots;
      ReachedFresh(depth);
    }

    // ----- device

    /** One turn of the device loop; the record follows as long as a published command is waiting. */
    method ProcessOne(status: int)
      requires RingsView().WellFormed()
      modifies this`sqHead, this`cqTail, this`devPhase, this`hist, cqes
      ensures RingsView() == Process(old(RingsView()), status) && hist == Recorded(old(hist), status, depth)
      ensures sqHead == (old(sqHead) + 1) % depth
    {
      var cmd := sqCmds[sqHead];
      cqes[cqTail] := Cqe(cmd.cid, status, devPhase);
      sqHead := (sqHead + 1) % depth;
      cqTail := (cqTail + 1) % depth;
      if cqTail == 0 {
        devPhase := Flip(devPhase);
      }
      hist := Recorded(hist, status, depth);
    }

    /** openflash_process_sq for any doorbell value; `accepting` says whether the device is ready and
        the queue enabled. The n-th command of this call completes with statuses(n). A tail the driver
        has published makes the device execute exactly the commands up to it. */
    method ProcessSq(newTail: nat, accepting: bool, statuses: nat -> int)
      requires Valid(Off)
      modifies this`sqHead, this`cqTail, this`devPhase, this`hist, cqes
      ensures old(RingsView()).WellFormed() && RingsView() == ProcessTimes(old(RingsView()), statuses, old(Rung(newTail, accepting)))
      ensures hist.cmds == old(hist.cmds) && hist.read == old(hist.read)
      ensures old(Rung(newTail, accepting)) <= |old(hist.cmds)| - |old(hist.done)| ==>
                Valid(Off) && Executed(old(hist), hist, statuses, old(Rung(newTail, accepting)))
      ensures accepting && newTail == sqTail ==> Valid(Off) && Executed(old(hist), hist, statuses, |hist.cmds| - |old(hist.done)|)
    {
      ghost var s, k := View(Idle, Off), Rung(newTail, accepting);
      ReachedShape(s);
      WaitingDistance(s);
      DoorbellEffect(s, statuses, k);
      if !accepting || newTail >= depth {
        return;
      }
      ProcessTo(newTail, statuses);
      assert View(Idle, Off) == AfterTurns(s, statuses, k);
    }

    /** How many commands a doorbell makes the device execute. */
    ghost function Rung(newTail: nat, accepting: bool): nat
      reads this
    {
      if accepting && newTail < depth && sqHead < depth then Distance(sqHead, newTail, depth) else 0
    }

    method ProcessTo(newTail: nat, statuses: nat -> int)
      requires RingsView().WellFormed() && newTail < depth
      modifies this`sqHead, this`cqTail, this`devPhase, this`hist, cqes
      ensures var k := old(Distance(sqHead, newTail, depth));
              RingsView() == ProcessTimes(old(RingsView()), statuses, k) && hist == RecordTimes(old(hist), statuses, depth, k)
    {
      ghost var k, r := Distance(sqHead, newTail, depth), RingsView();
      var n := 0;
      while sqHead != newTail
        invariant sqHead < depth && n <= k && Distance(sqHead, newTail, depth) == k - n
        invariant RingsView() == ProcessTimes(r, statuses, n) && hist == RecordTimes(old(hist), statuses, depth, n)
        decreases k - n
      {
        ProcessTowards(newTail, statuses(n));
        n := n + 1;
      }
    }

    method ProcessTowards(newTail: nat, status: int)
      requires RingsView().WellFormed() && newTail < depth && sqHead != newTail
      modifies this`sqHead, this`cqTail, this`devPhase, this`hist, cqes
      ensures RingsView() == Process(old(RingsView()), status) && hist == Recorded(old(hist), status, depth)
      ensures sqHead < depth && Distance(sqHead, newTail, depth) == old(Distance(sqHead, newTail, depth)) - 1
    {
      DistanceNext(sqHead, newTail, depth);
      ProcessOne(status);
    }

    // ----- interrupt handler

    method UnmapOne(t: nat, ghost drain: Drain, ghost sweep: Sweep)
      requires Shape(View(drain, sweep)) && t < requests.Length && requests[t].mapped > 0
      modifies this`live, this`unmapped, requests
      ensures View(drain, sweep) == UnmapLast(old(View(drain, sweep)), t)
    {
      var n := requests[t].mapped - 1;
      requests[t] := requests[t].(mapped := n);
      live := live - multiset{requests[t].sgl[n]};
      unmapped := unmapped + multiset{requests[t].sgl[n]};
    }

    /** Undo the mappings of a request taken by the handler or by the sweep, last one first. */
    method UnmapAll(t: nat, ghost s: Host)
      requires Reached(s) && Shape(s) && View(s.drain, s.sweep) == s && t < requests.Length && Taken(s, t)
      modifies this`live, this`unmapped, requests
      ensures View(s.drain, s.sweep) == UnmapRest(s, t) && Reached(UnmapRest(s, t))
    {
      ReachedShape(s);
      ghost var u := s;
      while requests[t].mapped > 0
        invariant Reached(u) && Shape(u) && View(s.drain, s.sweep) == u && u.drain == s.drain && u.sweep == s.sweep
        invariant |u.slots| == |s.slots| && UnmapRest(u, t) == UnmapRest(s, t)
        decreases u.slots[t].mapped
      {
        ReachedUnmap(u, t);
        UnmapOne(t, s.drain, s.sweep);
        u := UnmapLast(u, t);
      }
    }

    /** Read the completion at the head and take the request it names, if there is one. */
    method TakeCompletion() returns (taken: Option<nat>, tag: nat, status: int, ghost drain: Drain)
      requires Shape(View(Idle, Off))
      modifies requests
      ensures View(drain, Off) == DoClaim(old(View(Idle, Off)))
      ensures taken.Some? ==> drain == Claimed(tag, taken.value, status) && tag < requests.Length
      ensures taken.None? ==> drain == Settled
    {
      ghost var s := View(Idle, Off);
      var cqe := cqes[cqHead];
      taken, tag, status, drain := None, 0, cqe.status, Settled;
      if 1 <= cqe.cid <= depth - 1 {
        tag := cqe.cid - 1;
        taken := requests[tag].rq;
        requests[tag] := requests[tag].(rq := None);
        if taken.Some? {
          drain := Claimed(tag, taken.value, status);
        } else {
          assert requests[..] == s.slots;
        }
      }
    }

    method ReleaseHead()
      requires Shape(View(Settled, Off))
      modifies this`hist, this`cqHead, this`cqPhase
      ensures View(Idle, Off) == DoRelease(old(View(Settled, Off)))
    {
      cqHead := (cqHead + 1) % depth;
      if cqHead == 0 {
        cqPhase := Flip(cqPhase);
      }
      hist := hist.(read := hist.read + 1);
    }

    /** blk_mq_end_request. */
    ghost method ReportEnd(t: nat, q: nat, report: BlkStatus, drain: Drain, sweep: Sweep)
      modifies this`ended, this`reports, this`busy
      ensures View(drain, sweep) == EndRequest(old(View(drain, sweep)), t, q, report)
    {
      ended := ended + multiset{q};
      reports := reports[q := report];
      busy := busy - {t};
    }

    method EndTaken(t: nat, q: nat, status: int, ghost c: Host)
      requires Reached(c) && Shape(c) && c.drain == Claimed(t, q, status) && Taken(c, t)
      requires View(c.drain, c.sweep) == c && t < requests.Length
      modifies this`live, this`unmapped, this`ended, this`reports, this`busy, requests
      ensures View(Settled, c.sweep) == EndRequest(UnmapRest(c, t), t, q, BlkStatusOf(status)).(drain := Settled)
    {
      UnmapAll(t, c);
      ReportEnd(t, q, BlkStatusOf(status), c.drain, c.sweep);
    }

    /** One turn of the loop in openflash_io_irq. */
    method DrainOne(ghost s: Host)
      requires Reached(s) && Shape(s) && View(Idle, Off) == s && PhaseMatches(s.rings)
      modifies this`live, this`unmapped, this`ended, this`reports, this`busy, this`hist, this`cqHead, this`cqPhase, requests
      ensures View(Idle, Off) == DrainNext(s)
    {
      DrainNextReached(s);
      var taken, tag, status, drain := TakeCompletion();
      if taken.Some? {
        EndTaken(tag, taken.value, status, DoClaim(s));
      }
      ReleaseHead();
    }

    /** openflash_io_irq: reads every completion the device has posted, and ends exactly the
        requests they answer, in order. */
    method IoIrq() returns (handled: bool)
      requires Valid(Off)
      modifies this`live, this`unmapped, this`ended, this`reports, this`busy, this`hist, this`cqHead, this`cqPhase, requests
      ensures Valid(Off)
      ensures hist == old(hist).(read := |old(hist.done)|)
      ensures |old(hist.done)| <= |reqs| && old(hist.read) <= |old(hist.done)|
      ensures ended == old(ended) + multiset(reqs[old(hist.read)..|old(hist.done)|])
      ensures reports == Reported(old(reports), reqs, hist.done, old(hist.read), |hist.done|)
      ensures handled <==> old(hist.read) < |old(hist.done)|
    {
      var completed := 0;
      ghost var s0 := View(Idle, Off);
      ghost var s := s0;
      HeadTest(s);
      assert s0.reqs[s0.hist.read..s0.hist.read] == [];
      while cqes[cqHead].phase == cqPhase
        invariant View(Idle, Off) == s && Reached(s) && Shape(s) && Drained(s0, s)
        invariant s0.hist.read + completed == s.hist.read
        invariant PhaseMatches(s.rings) <==> s.hist.read < |s.hist.done|
        decreases |s.hist.done| - s.hist.read
      {
        DrainedMore(s0, s);
        DrainOne(s);
        s := DrainNext(s);
        completed := completed + 1;
      }
      handled := completed > 0;
    }

    // ----- failure sweep

    method TakeOwner(tag: nat) returns (rq: Option<nat>, ghost sweep: Sweep)
      requires Shape(View(Idle, At(tag))) && tag < requests.Length
      modifies requests
      ensures sweep == (if rq.Some? then Took(tag, rq.value) else At(tag + 1))
      ensures View(Idle, sweep) == DoSweepTake(old(View(Idle, At(tag))))
    {
      ghost var was := requests[..];
      rq := requests[tag].rq;
      requests[tag] := requests[tag].(rq := None);
      assert rq.None? ==> requests[..] == was;
      sweep := if rq.Some? then Took(tag, rq.value) else At(tag + 1);
    }

    method EndSwept(t: nat, q: nat, ghost c: Host)
      requires Reached(c) && Shape(c) && c.sweep == Took(t, q) && Taken(c, t) && View(c.drain, c.sweep) == c && t < requests.Length
      modifies this`live, this`unmapped, this`ended, this`reports, this`busy, requests
      ensures View(c.drain, At(t + 1)) == EndRequest(UnmapRest(c, t), t, q, StsTimeout).(sweep := At(t + 1))
    {
      UnmapAll(t, c);
      ReportEnd(t, q, StsTimeout, c.drain, c.sweep);
    }

    /** One turn of the loop in openflash_fail_io_requests. */
    method FailOne(tag: nat, ghost s: Host) returns (ghost s': Host)
      requires Reached(s) && s.sweep == At(tag) && s.drain.Idle? && tag < requests.Length && View(Idle, At(tag)) == s
      modifies this`live, this`unmapped, this`ended, this`reports, this`busy, requests
      ensures View(Idle, At(tag + 1)) == s' && Reached(s') && s'.sweep == At(tag + 1) && s'.drain.Idle? && TimedOut(s.reports, s'.reports)
    {
      SweepTakeReached(s);
      s' := DoSweepTake(s);
      var rq, sweep := TakeOwner(tag);
      if rq.Some? {
        assert s'.drain == Idle && s'.sweep == sweep;
        EndSwept(tag, rq.value, s');
        s' := SweptReached(s');
      }
    }

    /** openflash_fail_io_requests with the queue frozen: every request still owned is ended once,
        and nothing stays mapped. */
    method FailIoRequests()
      requires Valid(Off) && depth >= 2
      modifies this`live, this`unmapped, this`ended, this`reports, this`busy, requests
      ensures requests.Length == depth - 1 && Valid(At(requests.Length))
      ensures busy == {} && live == multiset{} && ended == multiset(accepted) && unmapped == mappedEver
      ensures TimedOut(old(reports), reports)
    {
      ghost var s := SweepBegin(View(Idle, Off));
      for tag := 0 to requests.Length
        invariant s.sweep == At(tag) && s.drain.Idle? && View(Idle, At(tag)) == s && Reached(s)
        invariant TimedOut(old(reports), s.reports)
      {
        s := FailOne(tag, s);
      }
      SweepDone(s);
    }

    // ----- submission

    method MapOne(tag: nat, n: nat, seg: Segment)
      requires tag < requests.Length && n < |requests[tag].sgl|
      modifies this`live, this`mappedEver, requests
      ensures live == old(live) + multiset{seg} && mappedEver == old(mappedEver) + multiset{seg}
      ensures requests[..] == old(requests[..])[tag := old(requests[tag]).(sgl := old(requests[tag].sgl)[n := seg])]
    {
      requests[tag] := requests[tag].(sgl := requests[tag].sgl[n := seg]);
      live := live + multiset{seg};
      mappedEver := mappedEver + multiset{seg};
    }

    /** Map segments until one fails, writing them to the tag's list. */
    method MapSegments(tag: nat, segs: seq<Segment>, fails: nat -> bool) returns (mapped: nat)
      requires tag < requests.Length && |segs| <= |requests[tag].sgl|
      modifies this`live, this`mappedEver, requests
      ensures mapped == FirstFailure(segs, fails)
      ensures live == old(live) + multiset(segs[..mapped]) && mappedEver == old(mappedEver) + multiset(segs[..mapped])
      ensures requests[..] == old(requests[..])[tag := Written(old(requests[tag]), segs[..mapped])]
    {
      mapped := 0;
      ghost var was, x := requests[..], requests[tag];
      assert segs[..0] == [] && Written(x, []) == x && was[tag := x] == was;
      while mapped < |segs| && !fails(mapped)
        invariant mapped <= |segs| <= |x.sgl| && mapped <= FirstFailure(segs, fails)
        invariant live == old(live) + multiset(segs[..mapped]) && mappedEver == old(mappedEver) + multiset(segs[..mapped])
        invariant requests[..] == was[tag := Written(x, segs[..mapped])]
      {
        WrittenMore(x, segs, mapped);
        Regroup(old(live), multiset(segs[..mapped]), multiset{segs[mapped]});
        Regroup(old(mappedEver), multiset(segs[..mapped]), multiset{segs[mapped]});
        assert requests[tag] == requests[..][tag];
        MapOne(tag, mapped, segs[mapped]);
        mapped := mapped + 1;
      }
    }

    /** Undo the first `n` list entries, last one first. */
    method UnmapSegments(tag: nat, n: nat)
      requires tag < requests.Length && n <= |requests[tag].sgl|
      requires multiset(requests[tag].sgl[..n]) <= live
      modifies this`live, this`unmapped
      ensures live == old(live) - multiset(requests[tag].sgl[..n])
      ensures unmapped == old(unmapped) + multiset(requests[tag].sgl[..n])
    {
      var mapped := n;
      var sgl := requests[tag].sgl;
      ghost var rest := live - multiset(sgl[..n]);
      UnmapStart(live, sgl[..n]);
      while mapped > 0
        invariant 0 <= mapped <= n <= |sgl|
        invariant live == rest + multiset(sgl[..mapped])
        invariant unmapped + multiset(sgl[..mapped]) == old(unmapped) + multiset(sgl[..n])
      {
        mapped := mapped - 1;
        UnmapMore(rest, unmapped, sgl, mapped);
        live := live - multiset{sgl[mapped]};
        unmapped := unmapped + multiset{sgl[mapped]};
      }
      assert sgl[..0] == [];
      AddNothing(rest);
      AddNothing(unmapped);
    }

    /** Hand the filled descriptor at the tail to the device in the name of `rq`. */
    method CommitLocked(tag: nat, rq: nat, body: Body, n: nat)
      requires Shape(View(Idle, Off)) && tag < requests.Length && sqCmds[sqTail] == Command(tag + 1, body)
      modifies this`sqTail, this`hist, this`reqs, this`busy, this`accepted, requests
      ensures View(Idle, Off) == Commit(old(View(Idle, Off)), tag, rq, body, n)
    {
      assert sqCmds[..][sqTail := sqCmds[sqTail]] == sqCmds[..];
      requests[tag] := requests[tag].(mapped := n, rq := Some(rq));
      MoveTail();
      busy, accepted := busy + {tag}, accepted + {rq};
      hist, reqs := hist.(cmds := hist.cmds + [Command(tag + 1, body)]), reqs + [rq];
    }

    method MoveTail()
      requires RingsView().WellFormed()
      modifies this`sqTail
      ensures RingsView() == old(RingsView()).(sqTail := (old(sqTail) + 1) % depth)
    {
      sqTail := (sqTail + 1) % depth;
    }

    /** The part of openflash_queue_rq under the submission lock, with `n` segments mapped. */
    method SubmitLocked(tag: nat, id: nat, rq: BlockRequest, n: nat, canFua: bool) returns (status: BlkStatus)
      requires Shape(View(Idle, Off)) && tag < requests.Length && n <= MAX_SGL
      modifies this`sqTail, this`hist, this`reqs, this`busy, this`accepted, sqCmds, requests
      ensures status == if old(requests[tag].rq).Some? then StsResource else if rq.fua && !canFua then StsNotSupp else StsOk
      ensures View(Idle, Off) == LockedOutcome(old(View(Idle, Off)), tag, id, Draft(rq), BodyOf(rq, lists(tag), n), n, status)
    {
      if requests[tag].rq.Some? {
        return StsResource;
      }
      ghost var s := View(Idle, Off);
      sqCmds[sqTail] := Command(tag + 1, Draft(rq));
      assert View(Idle, Off) == Scribble(s, Command(tag + 1, Draft(rq)));
      if rq.fua && !canFua {
        return StsNotSupp;
      }
      ghost var d := View(Idle, Off);
      FillDescriptor(tag, rq, n, d);
      CommitLocked(tag, id, BodyOf(rq, lists(tag), n), n);
      CommitScribbled(s, tag, id, Draft(rq), BodyOf(rq, lists(tag), n), n);
      return StsOk;
    }

    /** Flags, count and list address of the descriptor at the tail. */
    method FillDescriptor(tag: nat, rq: BlockRequest, n: nat, ghost d: Host)
      requires Shape(d) && View(Idle, Off) == d && sqCmds[sqTail] == Command(tag + 1, Draft(rq))
      modifies sqCmds
      ensures View(Idle, Off) == Scribble(d, Command(tag + 1, BodyOf(rq, lists(tag), n)))
    {
      var body := sqCmds[sqTail].body;
      if rq.fua {
        body := body.(flags := body.flags + FLAG_FUA);
      }
      if n > 0 {
        body := body.(flags := FLAG_SGL, control := n, dataAddr := lists(tag));
      }
      sqCmds[sqTail] := Command(tag + 1, body);
    }

    /** Undo the first `n` entries of the tag's list and leave the rest of the state alone. */
    method RollBack(tag: nat, n: nat, ghost w: Host)
      requires View(Idle, Off) == w && Shape(w) && tag < requests.Length && n <= MAX_SGL
      requires multiset(w.slots[tag].sgl[..n]) <= w.live
      modifies this`live, this`unmapped
      ensures var g := multiset(w.slots[tag].sgl[..n]); View(Idle, Off) == w.(live := w.live - g, unmapped := w.unmapped + g)
    {
      assert requests[tag] == w.slots[tag];
      UnmapSegments(tag, n);
    }

    /** openflash_queue_rq from the mapping loop on, for a request with data. */
    method QueueData(tag: nat, id: nat, rq: BlockRequest, fails: nat -> bool, canFua: bool, ghost s: Host) returns (status: BlkStatus)
      requires Shape(s) && View(Idle, Off) == s && tag < |s.slots| && |rq.segs| <= MAX_SGL
      modifies this`sqTail, this`hist, this`reqs, this`busy, this`accepted, this`live, this`mappedEver, this`unmapped, sqCmds, requests
      ensures status == if FirstFailure(rq.segs, fails) < |rq.segs| || s.slots[tag].rq.Some? then StsResource else if rq.fua && !canFua then StsNotSupp else StsOk
      ensures View(Idle, Off) == DataOutcome(s, tag, id, rq, lists(tag), FirstFailure(rq.segs, fails), status)
    {
      var mapped := MapSegments(tag, rq.segs, fails);
      var segs := rq.segs[..mapped];
      StagedAbort(s, tag, segs, None);
      if mapped < |rq.segs| {
        RollBack(tag, mapped, Staged(s, tag, segs));
        return StsResource;
      }
      assert segs == rq.segs;
      status := SubmitData(tag, id, rq, canFua, s);
    }

    /** The rest of it, with all segments mapped. */
    method SubmitData(tag: nat, id: nat, rq: BlockRequest, canFua: bool, ghost s: Host) returns (status: BlkStatus)
      requires Shape(s) && tag < |s.slots| && |rq.segs| <= MAX_SGL && View(Idle, Off) == Staged(s, tag, rq.segs)
      modifies this`sqTail, this`hist, this`reqs, this`busy, this`accepted, this`live, this`unmapped, sqCmds, requests
      ensures status == if s.slots[tag].rq.Some? then StsResource else if rq.fua && !canFua then StsNotSupp else StsOk
      ensures View(Idle, Off) == DataOutcome(s, tag, id, rq, lists(tag), |rq.segs|, status)
    {
      StagedAbort(s, tag, rq.segs, None);
      status := SubmitLocked(tag, id, rq, |rq.segs|, canFua);
      ghost var body := BodyOf(rq, lists(tag), |rq.segs|);
      if status == StsOk {
        StagedCommit(s, tag, id, body, rq.segs);
      } else {
        LockedUndone(s, tag, id, rq, lists(tag), status);
        LockedShape(Staged(s, tag, rq.segs), tag, id, Draft(rq), body, |rq.segs|, status);
        RollBack(tag, |rq.segs|, LockedOutcome(Staged(s, tag, rq.segs), tag, id, Draft(rq), body, |rq.segs|, status));
      }
    }

    /** openflash_queue_rq: `fails` says which mappings the DMA API refuses and `canFua` whether the
        controller advertises FUA. The request is accepted exactly when Verdict says so; otherwise
        nothing stays mapped, owned or published, and at most the list of its tag is overwritten. */
    method QueueRq(tag: nat, id: nat, rq: BlockRequest, fails: nat -> bool, canFua: bool) returns (status: BlkStatus)
      requires Valid(Off) && id !in accepted
      modifies this`sqTail, this`hist, this`reqs, this`busy, this`accepted, this`live, this`mappedEver, this`unmapped, sqCmds, requests
      ensures tag !in old(busy) ==> Valid(Off)
      ensures status == Verdict(rq, tag, depth, tag in old(busy), fails, canFua)
      ensures status == StsOk ==>
                && hist == old(hist).(cmds := old(hist.cmds) + [Command(tag + 1, BodyOf(rq, lists(tag), Mappable(rq)))]) && reqs == old(reqs) + [id]
                && accepted == old(accepted) + {id} && busy == old(busy) + {tag}
                && tag < requests.Length && Mappable(rq) <= |requests[tag].sgl|
                && requests[tag].sgl[..Mappable(rq)] == rq.segs[..Mappable(rq)] && requests[tag].mapped == Mappable(rq)
                && (forall t :: 0 <= t < requests.Length && t != tag ==> requests[t] == old(requests[t]))
                && live == old(live) + (if CarriesData(rq.op) then multiset(rq.segs) else multiset{})
      ensures status != StsOk ==>
                && hist == old(hist) && reqs == old(reqs) && accepted == old(accepted) && busy == old(busy)
                && live == old(live) && sqTail == old(sqTail)
                && forall t :: 0 <= t < requests.Length ==>
                     requests[t].rq == old(requests[t].rq) && requests[t].mapped == old(requests[t].mapped) && (t != tag ==> requests[t] == old(requests[t]))
    {
      ghost var s := View(Idle, Off);
      ReachedShape(s);
      if rq.pos % SECTORS_PER_BLOCK != 0 || rq.bytes % Abi.BLOCK_SIZE != 0 || tag + 1 >= depth {
        return StsIoErr;
      }
      if rq.fua && !rq.op.Write? {
        return StsNotSupp;
      }
      if rq.op.Other? {
        return StsNotSupp;
      }
      OwnedTag(s, tag);
      status := QueueByOp(tag, id, rq, fails, canFua, s);
      OutcomeFields(s, tag, id, rq, lists(tag), FirstFailure(rq.segs, fails), status);
      if tag !in s.busy {
        OutcomeReached(s, tag, id, rq, lists(tag), FirstFailure(rq.segs, fails), status);
      }
      assert requests[..] == Outcome(s, tag, id, rq, lists(tag), FirstFailure(rq.segs, fails), status).slots;
    }

    /** The operations openflash_queue_rq knows, after its common checks. */
    method QueueByOp(tag: nat, id: nat, rq: BlockRequest, fails: nat -> bool, canFua: bool, ghost s: Host) returns (status: BlkStatus)
      requires Shape(s) && s == View(Idle, Off) && tag < |s.slots|
      requires !rq.op.Other? && (rq.fua ==> rq.op.Write?)
      requires rq.pos % SECTORS_PER_BLOCK == 0 && rq.bytes % Abi.BLOCK_SIZE == 0
      modifies this`sqTail, this`hist, this`reqs, this`busy, this`accepted, this`live, this`mappedEver, this`unmapped, sqCmds, requests
      ensures status == Verdict(rq, tag, depth, s.slots[tag].rq.Some?, fails, canFua)
      ensures View(Idle, Off) == Outcome(s, tag, id, rq, lists(tag), FirstFailure(rq.segs, fails), status)
    {
      match rq.op {
        case Read | Write =>
          if rq.bytes == 0 || |rq.segs| > MAX_SGL {
            return StsIoErr;
          }
          status := QueueData(tag, id, rq, fails, canFua, s);
        case FlushCache | Discard =>
          status := SubmitLocked(tag, id, rq, 0, canFua);
      }
    }
  }

  /** The decision table of openflash_queue_rq; `owned` says whether the tag's slot holds a request. */
  function Verdict(rq: BlockRequest, tag: nat, depth: nat, owned: bool, fails: nat -> bool, canFua: bool): BlkStatus {
    if rq.pos % SECTORS_PER_BLOCK != 0 || rq.bytes % Abi.BLOCK_SIZE != 0 || tag + 1 >= depth then StsIoErr
    else if (rq.fua && !rq.op.Write?) || rq.op.Other? then StsNotSupp
    else if CarriesData(rq.op) && (rq.bytes == 0 || |rq.segs| > MAX_SGL) then StsIoErr
    else if owned then StsResource
    else if !CarriesData(rq.op) then StsOk
    else if exists i :: 0 <= i < |rq.segs| && fails(i) then StsResource
    else if rq.fua && !canFua then StsNotSupp
    else StsOk
  }

  /** How many segments an accepted request has mapped. */
  function Mappable(rq: BlockRequest): (n: nat)
    ensures n <= |rq.segs|
  {
    if CarriesData(rq.op) then |rq.segs| else 0
  }

  /** The state after a request that passed the common checks, by its result. */
  function Outcome(s: Host, t: nat, q: nat, rq: BlockRequest, list: int, n: nat, status: BlkStatus): Host
    requires Shape(s) && t < |s.slots| && n <= |rq.segs|
  {
    if CarriesData(rq.op) && rq.bytes != 0 && |rq.segs| <= MAX_SGL then DataOutcome(s, t, q, rq, list, n, status)
    else LockedOutcome(s, t, q, Draft(rq), BodyOf(rq, list, 0), 0, status)
  }

  lemma OutcomeFields(s: Host, t: nat, q: nat, rq: BlockRequest, list: int, n: nat, status: BlkStatus)
    requires Shape(s) && t < |s.slots| && n <= |rq.segs|
    requires status == StsOk && CarriesData(rq.op) ==> rq.bytes != 0 && |rq.segs| <= MAX_SGL
    requires status == StsNotSupp ==> CarriesData(rq.op) && rq.bytes != 0 && |rq.segs| <= MAX_SGL
    ensures var u := Outcome(s, t, q, rq, list, n, status);
            if status == StsOk then
              && u.hist == s.hist.(cmds := s.hist.cmds + [Command(t + 1, BodyOf(rq, list, Mappable(rq)))]) && u.reqs == s.reqs + [q]
              && u.accepted == s.accepted + {q} && u.busy == s.busy + {t} && |u.slots| == |s.slots| && Mappable(rq) <= |u.slots[t].sgl|
              && u.slots[t].sgl[..Mappable(rq)] == rq.segs[..Mappable(rq)] && u.slots[t].mapped == Mappable(rq)
              && (forall k :: 0 <= k < |s.slots| && k != t ==> u.slots[k] == s.slots[k])
              && u.live == s.live + if CarriesData(rq.op) then multiset(rq.segs) else multiset{}
            else
              && u.hist == s.hist && u.reqs == s.reqs && u.accepted == s.accepted && u.busy == s.busy && u.live == s.live
              && u.rings.sqTail == s.rings.sqTail && |u.slots| == |s.slots|
              && u.slots[t].rq == s.slots[t].rq && u.slots[t].mapped == s.slots[t].mapped
              && forall k :: 0 <= k < |s.slots| && k != t ==> u.slots[k] == s.slots[k]
  {
    AddNothing(s.live);
  }

  lemma OutcomeReached(s: Host, t: nat, q: nat, rq: BlockRequest, list: int, n: nat, status: BlkStatus)
    requires Reached(s) && Shape(s) && t < |s.slots| && n <= |rq.segs|
    requires s.drain.Idle? && s.sweep.Off? && t !in s.busy && q !in s.accepted
    requires status == StsNotSupp ==> CarriesData(rq.op) && rq.bytes != 0 && |rq.segs| <= MAX_SGL
    ensures Reached(Outcome(s, t, q, rq, list, n, status))
  {
    if CarriesData(rq.op) && rq.bytes != 0 && |rq.segs| <= MAX_SGL {
      DataOutcomeReached(s, t, q, rq, list, n, status);
    } else if status == StsOk {
      OwnedTag(s, t);
      PlainSubmit(s, t, q, BodyOf(rq, list, 0));
    }
  }

  predicate FreeSlot(s: Host, t: nat)
    requires t < |s.slots|
  {
    s.slots[t].rq.None? && s.slots[t].mapped == 0
  }

  /** With no handler running, a tag is in use exactly when its slot holds a request. */
  lemma OwnedTag(s: Host, t: nat)
    requires Reached(s) && s.drain.Idle? && s.sweep.Off? && t < |s.slots|
    ensures t in s.busy <==> s.slots[t].rq.Some?
    ensures t !in s.busy ==> FreeSlot(s, t)
  {
    ReachedOk(s);
    assert t in s.busy <==> InUse(s, t);
  }

  /** What a data request leaves behind, by its result; `n` segments were mapped. */
  function DataOutcome(s: Host, t: nat, q: nat, rq: BlockRequest, list: int, n: nat, status: BlkStatus): Host
    requires Shape(s) && t < |s.slots| && n <= |rq.segs| <= MAX_SGL
  {
    match status
    case StsOk => DoSubmit(s, t, q, BodyOf(rq, list, |rq.segs|), rq.segs)
    case StsNotSupp => DoAbort(s, t, rq.segs, Some(Command(t + 1, Draft(rq))))
    case _ => DoAbort(s, t, rq.segs[..n], None)
  }

  lemma DataOutcomeReached(s: Host, t: nat, q: nat, rq: BlockRequest, list: int, n: nat, status: BlkStatus)
    requires Reached(s) && Shape(s) && t < |s.slots| && n <= |rq.segs| <= MAX_SGL
    requires s.sweep.Off? && t !in s.busy && q !in s.accepted
    ensures Reached(DataOutcome(s, t, q, rq, list, n, status))
  {
    match status
    case StsOk => ReachedNext(s, Submit(t, q, BodyOf(rq, list, |rq.segs|), rq.segs));
    case StsNotSupp => ReachedNext(s, Abort(t, rq.segs, Some(Command(t + 1, Draft(rq)))));
    case _ => ReachedNext(s, Abort(t, rq.segs[..n], None));
  }

  lemma PlainSubmit(s: Host, t: nat, q: nat, body: Body)
    requires Reached(s) && Shape(s) && t < |s.slots| && s.sweep.Off? && t !in s.busy && q !in s.accepted && FreeSlot(s, t)
    ensures Reached(Commit(s, t, q, body, 0))
  {
    ReachedNext(s, Submit(t, q, body, []));
    StagedCommit(s, t, q, body, []);
    StagedNothing(s, t);
  }

  lemma StagedNothing(s: Host, t: nat)
    requires Shape(s) && t < |s.slots|
    ensures Staged(s, t, []) == s
  {
    var none: seq<Segment> := [];
    assert none + s.slots[t].sgl[0..] == s.slots[t].sgl;
    assert s.slots[t := s.slots[t]] == s.slots;
    assert multiset(none) == multiset{};
    AddNothing(s.live);
    AddNothing(s.mappedEver);
  }

  /** What the locked section leaves behind, by its result. */
  function LockedOutcome(s: Host, t: nat, q: nat, draft: Body, body: Body, n: nat, status: BlkStatus): Host
    requires Shape(s) && t < |s.slots|
  {
    match status
    case StsOk => Commit(s, t, q, body, n)
    case StsNotSupp => Scribble(s, Command(t + 1, draft))
    case _ => s
  }

  /** The locked section on staged segments, when it fails, and its rollback. */
  lemma LockedUndone(s: Host, t: nat, q: nat, rq: BlockRequest, list: int, status: BlkStatus)
    requires Shape(s) && t < |s.slots| && |rq.segs| <= MAX_SGL && Shape(Staged(s, t, rq.segs)) && status != StsOk
    ensures var g := multiset(rq.segs);
            var w := LockedOutcome(Staged(s, t, rq.segs), t, q, Draft(rq), BodyOf(rq, list, |rq.segs|), |rq.segs|, status);
            && |w.slots| == |s.slots| && w.slots[t].sgl[..|rq.segs|] == rq.segs && g <= w.live
            && w.(live := w.live - g, unmapped := w.unmapped + g) == DataOutcome(s, t, q, rq, list, |rq.segs|, status)
  {
    var scribble := if status == StsNotSupp then Some(Command(t + 1, Draft(rq))) else None;
    StagedAbort(s, t, rq.segs, scribble);
    WholeList(rq.segs);
    assert DataOutcome(s, t, q, rq, list, |rq.segs|, status) == DoAbort(s, t, rq.segs, scribble);
  }

  lemma WholeList(segs: seq<Segment>)
    ensures segs[..|segs|] == segs
  {
  }

  lemma LockedShape(s: Host, t: nat, q: nat, draft: Body, body: Body, n: nat, status: BlkStatus)
    requires Shape(s) && t < |s.slots| && status != StsOk
    ensures Shape(LockedOutcome(s, t, q, draft, body, n, status))
  {
  }

  /** Publishing overwrites whatever the descriptor held. */
  lemma CommitScribbled(s: Host, t: nat, q: nat, draft: Body, body: Body, n: nat)
    requires Shape(s) && t < |s.slots|
    ensures Shape(Scribble(s, Command(t + 1, draft)))
    ensures var d := Scribble(Scribble(s, Command(t + 1, draft)), Command(t + 1, body));
            Shape(d) && Commit(d, t, q, body, n) == Commit(s, t, q, body, n)
  {
    var x, cmd, r := Command(t + 1, draft), Command(t + 1, body), s.rings;
    assert r.sq[r.sqTail := x][r.sqTail := cmd][r.sqTail := cmd] == r.sq[r.sqTail := cmd];
  }

  /** The segments are in the list and mapped, but the request does not own the tag yet. */
  function Staged(s: Host, t: nat, segs: seq<Segment>): Host
    requires Shape(s) && t < |s.slots| && |segs| <= MAX_SGL
  {
    s.(slots := s.slots[t := Written(s.slots[t], segs)], live := s.live + multiset(segs), mappedEver := s.mappedEver + multiset(segs))
  }

  function Scribble(s: Host, cmd: Command): Host
    requires Shape(s)
  {
    s.(rings := s.rings.(sq := s.rings.sq[s.rings.sqTail := cmd]))
  }

  function Commit(s: Host, t: nat, q: nat, body: Body, n: nat): Host
    requires Shape(s) && t < |s.slots|
  {
    var cmd := Command(t + 1, body);
    s.(rings := Publish(s.rings, cmd), hist := s.hist.(cmds := s.hist.cmds + [cmd]), reqs := s.reqs + [q],
       slots := s.slots[t := s.slots[t].(mapped := n, rq := Some(q))], busy := s.busy + {t}, accepted := s.accepted + {q})
  }

  lemma StagedCommit(s: Host, t: nat, q: nat, body: Body, segs: seq<Segment>)
    requires Shape(s) && t < |s.slots| && |segs| <= MAX_SGL
    ensures Shape(Staged(s, t, segs))
    ensures Commit(Staged(s, t, segs), t, q, body, |segs|) == DoSubmit(s, t, q, body, segs)
  {
    var x := Written(s.slots[t], segs);
    assert s.slots[t := x][t := x.(mapped := |segs|, rq := Some(q))] == s.slots[t := x.(mapped := |segs|, rq := Some(q))];
  }

  /** Staging some segments, perhaps filling the descriptor, and rolling back is the abort step. */
  lemma StagedAbort(s: Host, t: nat, segs: seq<Segment>, scribble: Option<Command>)
    requires Shape(s) && t < |s.slots| && |segs| <= MAX_SGL
    ensures Shape(Staged(s, t, segs))
    ensures var staged := Staged(s, t, segs);
            var w := if scribble.Some? then Scribble(staged, scribble.value) else staged;
            && w.slots[t].sgl[..|segs|] == segs && multiset(segs) <= w.live
            && w.(live := w.live - multiset(segs), unmapped := w.unmapped + multiset(segs)) == DoAbort(s, t, segs, scribble)
  {
    StageCancels(s.live, multiset(segs));
  }

  lemma StageCancels<T>(a: multiset<T>, b: multiset<T>)
    ensures b <= a + b && a + b - b == a
  {
  }

  /** The number of segments mapped before the first failure. */
  function FirstFailure(segs: seq<Segment>, fails: nat -> bool): (n: nat)
    ensures n <= |segs| && (forall i :: 0 <= i < n ==> !fails(i)) && (n < |segs| ==> fails(n))
  {
    FailureFrom(segs, fails, 0)
  }

  function FailureFrom(segs: seq<Segment>, fails: nat -> bool, i: nat): (n: nat)
    requires i <= |segs| && forall j :: 0 <= j < i ==> !fails(j)
    ensures i <= n <= |segs| && (forall j :: 0 <= j < n ==> !fails(j)) && (n < |segs| ==> fails(n))
    decreases |segs| - i
  {
    if i == |segs| || fails(i) then i else FailureFrom(segs, fails, i + 1)
  }

  /** The slot with `segs` at the front of its list. */
  function Written(x: Slot, segs: seq<Segment>): Slot
    requires |segs| <= |x.sgl|
  {
    x.(sgl := segs + x.sgl[|segs|..])
  }

  lemma WrittenMore(x: Slot, segs: seq<Segment>, n: nat)
    requires n < |segs| <= |x.sgl|
    ensures Written(x, segs[..n]).(sgl := Written(x, segs[..n]).sgl[n := segs[n]]) == Written(x, segs[..n + 1])
    ensures multiset(segs[..n + 1]) == multiset(segs[..n]) + multiset{segs[n]}
  {
    assert segs[..n + 1] == segs[..n] + [segs[n]];
    assert (segs[..n] + x.sgl[n..])[n := segs[n]] == segs[..n + 1] + x.sgl[n + 1..];
  }

  lemma UnmapStart(live: multiset<Segment>, sgl: seq<Segment>)
    requires multiset(sgl) <= live
    ensures live == live - multiset(sgl) + multiset(sgl)
  {
  }

  lemma UnmapMore(rest: multiset<Segment>, gone: multiset<Segment>, sgl: seq<Segment>, n: nat)
    requires n < |sgl|
    ensures rest + multiset(sgl[..n + 1]) - multiset{sgl[n]} == rest + multiset(sgl[..n])
    ensures gone + multiset{sgl[n]} + multiset(sgl[..n]) == gone + multiset(sgl[..n + 1])
  {
    assert sgl[..n + 1] == sgl[..n] + [sgl[n]];
  }

  /** The reports after the completions from `from` to `to` have been read. */
  function Reported(reports: map<nat, BlkStatus>, reqs: seq<nat>, done: seq<Cqe>, from: nat, to: nat): map<nat, BlkStatus>
    requires from <= to <= |done| <= |reqs|
  {
    if from == to then reports else Reported(reports, reqs, done, from, to - 1)[reqs[to - 1] := BlkStatusOf(done[to - 1].status)]
  }

  /** `s` follows `s0` by some turns of the drain loop, which ended the requests it read. */
  ghost predicate Drained(s0: Host, s: Host) {
    && s.drain.Idle? && s.sweep.Off? && s.reqs == s0.reqs
    && s0.hist.read <= s.hist.read <= |s.hist.done| <= |s.reqs|
    && s.hist == s0.hist.(read := s.hist.read)
    && s.ended == s0.ended + multiset(s.reqs[s0.hist.read..s.hist.read])
    && s.reports == Reported(s0.reports, s.reqs, s.hist.done, s0.hist.read, s.hist.read)
  }

  lemma DrainedOneMore(s0: Host, s: Host, d: Host)
    requires Drained(s0, s) && s.hist.read < |s.hist.done| && d.drain.Idle? && d.sweep.Off? && d.reqs == s.reqs
    requires d.hist == s.hist.(read := s.hist.read + 1) && d.ended == s.ended + multiset{s.reqs[s.hist.read]}
    requires d.reports == s.reports[s.reqs[s.hist.read] := BlkStatusOf(s.hist.done[s.hist.read].status)]
    ensures Drained(s0, d)
  {
    assert s.reqs[s0.hist.read..d.hist.read] == s.reqs[s0.hist.read..s.hist.read] + [s.reqs[s.hist.read]];
  }

  lemma DrainedMore(s0: Host, s: Host)
    requires Reached(s) && Shape(s) && PhaseMatches(s.rings) && Drained(s0, s)
    ensures var d := DrainNext(s);
            && Reached(d) && Shape(d) && Drained(s0, d) && d.hist.read == s.hist.read + 1
            && (PhaseMatches(d.rings) <==> d.hist.read < |d.hist.done|)
  {
    DrainNextReached(s);
    DrainNextEnds(s);
    HeadTest(DrainNext(s));
    DrainedOneMore(s0, s, DrainNext(s));
  }

  /** `t` is in the hand of the handler or of the sweep. */
  predicate Taken(s: Host, t: nat) {
    (s.drain.Claimed? && s.drain.tag == t) || (s.sweep.Took? && s.sweep.tag == t)
  }

  /** All remaining mappings of tag `t` undone. */
  function UnmapRest(s: Host, t: nat): (u: Host)
    requires Shape(s) && t < |s.slots|
    ensures Shape(u) && u.drain == s.drain && u.sweep == s.sweep && |u.slots| == |s.slots| && u.slots[t].mapped == 0
    ensures u.hist == s.hist && u.reqs == s.reqs && u.ended == s.ended && u.reports == s.reports && u.rings == s.rings && u.accepted == s.accepted
    decreases s.slots[t].mapped
  {
    if s.slots[t].mapped == 0 then s else UnmapRest(UnmapLast(s, t), t)
  }

  lemma ReachedUnmap(s: Host, t: nat)
    requires Reached(s) && Shape(s) && t < |s.slots| && Taken(s, t) && s.slots[t].mapped > 0
    ensures Reached(UnmapLast(s, t)) && Shape(UnmapLast(s, t))
  {
    var step := if s.drain.Claimed? && s.drain.tag == t then Unmap else SweepUnmap;
    ReachedNext(s, step);
    assert Next(s, step) == UnmapLast(s, t);
  }

  lemma {:induction false} ReachedUnmapRest(s: Host, t: nat)
    requires Reached(s) && Shape(s) && t < |s.slots| && Taken(s, t)
    ensures Reached(UnmapRest(s, t))
    decreases s.slots[t].mapped
  {
    if s.slots[t].mapped > 0 {
      ReachedUnmap(s, t);
      ReachedUnmapRest(UnmapLast(s, t), t);
    }
  }

  /** A whole turn of the drain loop: claim, unmap, end, release. */
  function DrainNext(s: Host): Host
    requires Shape(s)
  {
    var c := DoClaim(s);
    if c.drain.Claimed? then DoRelease(EndRequest(UnmapRest(c, c.drain.tag), c.drain.tag, c.drain.rq, BlkStatusOf(c.drain.status)).(drain := Settled))
    else DoRelease(c)
  }

  /** All that is new in `after` is timeouts. */
  ghost predicate TimedOut(before: map<nat, BlkStatus>, after: map<nat, BlkStatus>) {
    before.Keys <= after.Keys && forall q :: q in after ==> after[q] == StsTimeout || (q in before && after[q] == before[q])
  }

  lemma SweepBegin(s: Host) returns (s': Host)
    requires Reached(s) && s.sweep.Off? && s.drain.Idle?
    ensures s' == s.(sweep := At(0)) && Reached(s') && |s'.slots| == s.rings.depth - 1
  {
    ReachedShape(s);
    ReachedNext(s, SweepStart);
    s' := s.(sweep := At(0));
    assert Next(s, SweepStart) == s';
  }

  lemma SweepTakeReached(s: Host)
    requires Reached(s) && s.sweep.At? && s.sweep.next < |s.slots|
    ensures Shape(s) && Reached(DoSweepTake(s)) && Shape(DoSweepTake(s))
  {
    ReachedShape(s);
    ReachedNext(s, SweepTake);
    assert Next(s, SweepTake) == DoSweepTake(s);
    ReachedShape(DoSweepTake(s));
  }

  /** The sweep unmaps and ends the request it took. */
  lemma SweptReached(s: Host) returns (s': Host)
    requires Reached(s) && Shape(s) && s.sweep.Took?
    ensures s' == EndRequest(UnmapRest(s, s.sweep.tag), s.sweep.tag, s.sweep.rq, StsTimeout).(sweep := At(s.sweep.tag + 1))
    ensures Reached(s')
  {
    ReachedUnmapRest(s, s.sweep.tag);
    var u := UnmapRest(s, s.sweep.tag);
    s' := EndRequest(u, u.sweep.tag, u.sweep.rq, StsTimeout).(sweep := At(u.sweep.tag + 1));
    ReachedNext(u, SweepFinish);
    assert Next(u, SweepFinish) == s';
  }

  lemma SweepDone(s: Host)
    requires Reached(s) && s.sweep == At(|s.slots|) && s.drain.Idle?
    ensures s.busy == {} && s.live == multiset{} && s.ended == multiset(s.accepted) && s.unmapped == s.mappedEver
  {
    ReachedOk(s);
    assert forall t :: 0 <= t < |s.slots| ==> !InUse(s, t);
    QuietTallies(s);
  }

  lemma ReachedFinish(s: Host)
    requires Reached(s) && Shape(s) && s.drain.Claimed? && s.slots[s.drain.tag].mapped == 0
    ensures var e := EndRequest(s, s.drain.tag, s.drain.rq, BlkStatusOf(s.drain.status)).(drain := Settled); Shape(e) && Reached(e) && Reached(DoRelease(e))
  {
    var e := EndRequest(s, s.drain.tag, s.drain.rq, BlkStatusOf(s.drain.status)).(drain := Settled);
    ReachedNext(s, Finish);
    assert Next(s, Finish) == e;
    ReachedNext(e, Release);
    assert Next(e, Release) == DoRelease(e);
  }

  /** In a running queue a turn always finds the request its completion answers and ends it. */
  lemma DrainNextReached(s: Host)
    requires Reached(s) && Shape(s) && s.sweep.Off? && s.drain.Idle? && PhaseMatches(s.rings)
    ensures var c := DoClaim(s);
            && Reached(c) && Shape(c) && c.drain.Claimed? && Taken(c, c.drain.tag)
            && s.hist.read < |s.hist.done| <= |s.reqs| && c.drain.rq == s.reqs[s.hist.read]
            && c.drain.status == s.hist.done[s.hist.read].status
    ensures Reached(DrainNext(s))
  {
    ReachedOk(s);
    ClaimTakesOwn(s);
    ReachedNext(s, Claim);
    assert Next(s, Claim) == DoClaim(s);
    var c := DoClaim(s);
    ReachedUnmapRest(c, c.drain.tag);
    ReachedFinish(UnmapRest(c, c.drain.tag));
  }

  lemma DrainNextEnds(s: Host)
    requires Reached(s) && Shape(s) && s.sweep.Off? && s.drain.Idle? && PhaseMatches(s.rings)
    ensures s.hist.read < |s.hist.done| <= |s.reqs|
    ensures var d := DrainNext(s);
            && d.hist == s.hist.(read := s.hist.read + 1) && d.ended == s.ended + multiset{s.reqs[s.hist.read]}
            && d.reports == s.reports[s.reqs[s.hist.read] := BlkStatusOf(s.hist.done[s.hist.read].status)]
            && d.reqs == s.reqs && d.drain.Idle? && d.sweep.Off?
  {
    DrainNextReached(s);
  }

  lemma HeadTest(s: Host)
    requires Reached(s)
    ensures Shape(s) && (PhaseMatches(s.rings) <==> s.hist.read < |s.hist.done|)
    ensures s.hist.read <= |s.hist.done| <= |s.reqs|
  {
    ReachedOk(s);
    PhaseTestExact(s.rings, s.hist);
  }

  /** The n-th completion answers the n-th command. */
  lemma OwnCids(s: Host)
    requires Reached(s)
    ensures |s.hist.done| <= |s.hist.cmds| && forall i :: 0 <= i < |s.hist.done| ==> s.hist.done[i].cid == s.hist.cmds[i].cid
  {
    ReachedOk(s);
  }

  /** `h` follows `h0` by executing some commands with the given statuses. */
  ghost predicate Processed(h0: History, h: History, statuses: nat -> int) {
    && h.cmds == h0.cmds && h.read == h0.read && h0.done <= h.done
    && forall i :: |h0.done| <= i < |h.done| ==> h.done[i].status == statuses(i - |h0.done|)
  }

  lemma ProcessedMore(h0: History, h: History, statuses: nat -> int, cqe: Cqe)
    requires Processed(h0, h, statuses) && cqe.status == statuses(|h.done| - |h0.done|)
    ensures Processed(h0, h.(done := h.done + [cqe]), statuses)
  {
  }

  // ----- doorbells

  /** `k` turns of the device loop, whatever the ring holds. */
  function ProcessTimes(r: Rings, statuses: nat -> int, k: nat): (r': Rings)
    requires r.WellFormed()
    ensures r'.WellFormed()
  {
    if k == 0 then r else Process(ProcessTimes(r, statuses, k - 1), statuses(k - 1))
  }

  function RecordTimes(h: History, statuses: nat -> int, depth: nat, k: nat): History
    requires depth > 0
  {
    if k == 0 then h else Recorded(RecordTimes(h, statuses, depth, k - 1), statuses(k - 1), depth)
  }

  lemma {:induction false} TurnsKeep(h: History, statuses: nat -> int, depth: nat, k: nat)
    requires depth > 0
    ensures var h' := RecordTimes(h, statuses, depth, k); h'.cmds == h.cmds && h'.read == h.read
  {
    if k > 0 { TurnsKeep(h, statuses, depth, k - 1); }
  }

  lemma {:induction false} RecordProcessed(h: History, statuses: nat -> int, depth: nat, k: nat)
    requires depth > 0 && |h.done| + k <= |h.cmds|
    ensures var h' := RecordTimes(h, statuses, depth, k); Processed(h, h', statuses) && |h'.done| == |h.done| + k
  {
    if k > 0 {
      RecordProcessed(h, statuses, depth, k - 1);
      var g := RecordTimes(h, statuses, depth, k - 1);
      ProcessedMore(h, g, statuses, NextCqe(g, statuses(k - 1), depth));
    }
  }

  function AfterTurns(s: Host, statuses: nat -> int, k: nat): Host
    requires Shape(s)
  {
    s.(rings := ProcessTimes(s.rings, statuses, k), hist := RecordTimes(s.hist, statuses, s.Depth(), k))
  }

  lemma OneTurn(s: Host, u: Host, statuses: nat -> int, k: nat)
    requires Shape(s) && k > 0 && Shape(u) && u == AfterTurns(s, statuses, k - 1) && |u.hist.done| < |u.hist.cmds|
    ensures AfterTurns(s, statuses, k) == Next(u, Execute(statuses(k - 1)))
  {
  }

  lemma TurnReached(s: Host, statuses: nat -> int, k: nat)
    requires Shape(s) && k > 0 && |s.hist.done| + k <= |s.hist.cmds| && Reached(AfterTurns(s, statuses, k - 1))
    ensures Reached(AfterTurns(s, statuses, k))
  {
    var u := AfterTurns(s, statuses, k - 1);
    RecordProcessed(s.hist, statuses, s.Depth(), k - 1);
    ReachedShape(u);
    OneTurn(s, u, statuses, k);
    ReachedNext(u, Execute(statuses(k - 1)));
  }

  /** While published commands last, turns of the device loop are execute steps of the protocol. */
  lemma {:induction false} TurnsReached(s: Host, statuses: nat -> int, k: nat)
    requires Reached(s) && Shape(s) && |s.hist.done| + k <= |s.hist.cmds|
    ensures Reached(AfterTurns(s, statuses, k))
  {
    if k > 0 {
      TurnsReached(s, statuses, k - 1);
      TurnReached(s, statuses, k);
    } else {
      assert AfterTurns(s, statuses, 0) == s;
    }
  }

  /** Exactly `k` more commands are answered, in order, each under its own identifier. */
  ghost predicate Executed(h0: History, h: History, statuses: nat -> int, k: int) {
    && h.cmds == h0.cmds && h.read == h0.read && h0.done <= h.done && |h.done| == |h0.done| + k <= |h.cmds|
    && forall i :: |h0.done| <= i < |h.done| ==> h.done[i].cid == h.cmds[i].cid && h.done[i].status == statuses(i - |h0.done|)
  }

  lemma DoorbellEffect(s: Host, statuses: nat -> int, k: nat)
    requires Reached(s) && Shape(s)
    ensures var u := AfterTurns(s, statuses, k);
            && u.hist.cmds == s.hist.cmds && u.hist.read == s.hist.read && (k == 0 ==> u == s)
            && (|s.hist.done| + k <= |s.hist.cmds| ==> Reached(u) && Executed(s.hist, u.hist, statuses, k))
  {
    TurnsKeep(s.hist, statuses, s.Depth(), k);
    if |s.hist.done| + k <= |s.hist.cmds| {
      TurnsReached(s, statuses, k);
      RecordProcessed(s.hist, statuses, s.Depth(), k);
      OwnCids(AfterTurns(s, statuses, k));
    }
  }

  /** The distance from the device's head to the driver's tail is the number of waiting commands. */
  lemma WaitingDistance(s: Host)
    requires Reached(s)
    ensures Shape(s) && Distance(s.rings.sqHead, s.rings.sqTail, s.Depth()) == |s.hist.cmds| - |s.hist.done|
  {
    ReachedOk(s);
    RingBounds(s);
    WindowDistance(|s.hist.done|, |s.hist.cmds| - |s.hist.done|, s.Depth());
  }
}
