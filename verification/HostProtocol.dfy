/** The I/O queue of the Linux driver against the QEMU device, as a state machine: submission,
    device execution, the interrupt drain and the failure sweep in micro-steps, and reset.
    The drain frees a tag (Finish) before it moves the completion head (Release), so a new
    request may be submitted in between. */
module HostProtocol {
  import opened Common
  import opened Ring

  const MAX_SGL := 16

  datatype Segment = Segment(addr: int, length: int)

  /** Per-tag driver state: the owning request, its DMA list and how much of it is mapped. */
  datatype Slot = Slot(rq: Option<nat>, sgl: seq<Segment>, mapped: nat)

  /** Where the interrupt handler is: between completions, holding a request it took, or past
      ending (or skipping) one but not yet past the head. */
  datatype Drain = Idle | Claimed(tag: nat, rq: nat, status: int) | Settled

  /** Where the failure sweep is. */
  datatype Sweep = Off | At(next: nat) | Took(tag: nat, rq: nat)

  /** What the driver tells the block layer. */
  datatype BlkStatus = StsOk | StsIoErr | StsNotSupp | StsResource | StsTarget | StsMedium | StsTimeout

  /** openflash_blk_status of a completion's status code. */
  function BlkStatusOf(status: int): BlkStatus {
    match status
    case 0 => StsOk
    case 3 => StsTarget
    case 4 => StsMedium
    case 5 => StsMedium
    case 1 => StsNotSupp
    case 2 => StsNotSupp
    case _ => StsIoErr
  }

  /** `reqs`, `accepted`, `ended`, `reports`, `mappedEver` and `unmapped` record what happened; the rest is state.
      `busy` is the block layer's set of tags in use. */
  datatype Host = Host(rings: Rings, hist: History, reqs: seq<nat>,
                       slots: seq<Slot>, drain: Drain, sweep: Sweep, busy: set<nat>,
                       live: multiset<Segment>, mappedEver: multiset<Segment>, unmapped: multiset<Segment>,
                       accepted: set<nat>, ended: multiset<nat>, reports: map<nat, BlkStatus>)
  {
    function Depth(): nat {
      rings.depth
    }
  }

  datatype Step =
    | Submit(tag: nat, rq: nat, body: Body, segs: seq<Segment>)
    | Abort(tag: nat, segs: seq<Segment>, scribble: Option<Command>)
    | Execute(status: int)
    | Claim | Unmap | Finish | Release
    | SweepStart | SweepTake | SweepUnmap | SweepFinish
    | Reset

  function EmptySlot(): Slot {
    Slot(None, seq(MAX_SGL, _ => Segment(0, 0)), 0)
  }

  function FreshHost(depth: nat): Host
    requires depth >= 2
  {
    Host(FreshRings(depth), EMPTY, [], seq(depth - 1, _ => EmptySlot()), Idle, Off, {},
         multiset{}, multiset{}, multiset{}, {}, multiset{}, map[])
  }

  // ----- steps

  predicate Shape(s: Host) {
    && s.rings.WellFormed() && |s.slots| == s.Depth() - 1
    && (s.drain.Claimed? ==> s.drain.tag < |s.slots|)
    && (s.sweep.At? ==> s.sweep.next <= |s.slots|)
    && (s.sweep.Took? ==> s.sweep.tag < |s.slots|)
    && forall t :: 0 <= t < |s.slots| ==> |s.slots[t].sgl| == MAX_SGL && s.slots[t].mapped <= MAX_SGL
  }

  /** When each step can happen. The block layer hands out free tags only, and none while the
      queue is frozen; the device executes a published command, but need not: one on a queue that is
      not ready or not enabled stays unanswered. Reset waits for the sweep and for the handler only. */
  predicate Enabled(s: Host, step: Step)
    requires Shape(s)
  {
    match step
    case Submit(t, q, _, segs) => s.sweep.Off? && t < |s.slots| && t !in s.busy && q !in s.accepted && |segs| <= MAX_SGL
    case Abort(t, segs, _) => s.sweep.Off? && t < |s.slots| && t !in s.busy && |segs| <= MAX_SGL
    case Execute(_) => |s.hist.done| < |s.hist.cmds|
    case Claim => s.drain.Idle? && PhaseMatches(s.rings)
    case Unmap => s.drain.Claimed? && s.slots[s.drain.tag].mapped > 0
    case Finish => s.drain.Claimed? && s.slots[s.drain.tag].mapped == 0
    case Release => s.drain.Settled?
    case SweepStart => s.sweep.Off? && s.drain.Idle?
    case SweepTake => s.sweep.At? && s.sweep.next < |s.slots|
    case SweepUnmap => s.sweep.Took? && s.slots[s.sweep.tag].mapped > 0
    case SweepFinish => s.sweep.Took? && s.slots[s.sweep.tag].mapped == 0
    case Reset => s.sweep == At(|s.slots|) && s.drain.Idle?
  }

  function DoSubmit(s: Host, t: nat, q: nat, body: Body, segs: seq<Segment>): Host
    requires Shape(s) && t < |s.slots| && |segs| <= MAX_SGL
  {
    var cmd := Command(t + 1, body);
    s.(rings := Publish(s.rings, cmd), hist := s.hist.(cmds := s.hist.cmds + [cmd]), reqs := s.reqs + [q],
       slots := s.slots[t := Slot(Some(q), segs + s.slots[t].sgl[|segs|..], |segs|)],
       busy := s.busy + {t}, live := s.live + multiset(segs), mappedEver := s.mappedEver + multiset(segs),
       accepted := s.accepted + {q})
  }

  /** A submission that fails after mapping `segs` and perhaps after filling the descriptor at the
      tail: the list entries stay written, the mappings are undone, the tail does not move. */
  function DoAbort(s: Host, t: nat, segs: seq<Segment>, scribble: Option<Command>): Host
    requires Shape(s) && t < |s.slots| && |segs| <= MAX_SGL
  {
    var r := s.rings;
    s.(rings := if scribble.Some? then r.(sq := r.sq[r.sqTail := scribble.value]) else r,
       slots := s.slots[t := s.slots[t].(sgl := segs + s.slots[t].sgl[|segs|..])],
       mappedEver := s.mappedEver + multiset(segs), unmapped := s.unmapped + multiset(segs))
  }

  function DoExecute(s: Host, status: int): Host
    requires Shape(s) && |s.hist.done| < |s.hist.cmds|
  {
    s.(rings := Process(s.rings, status), hist := s.hist.(done := s.hist.done + [NextCqe(s.hist, status, s.Depth())]))
  }

  /** Read the entry at the head; take the request of its tag if the cid is valid and the tag owned. */
  function DoClaim(s: Host): Host
    requires Shape(s)
  {
    var cqe := s.rings.cq[s.rings.cqHead];
    if cqe.cid < 1 || cqe.cid > s.Depth() - 1 then s.(drain := Settled)
    else
      var t := cqe.cid - 1;
      if s.slots[t].rq.None? then s.(drain := Settled)
      else s.(slots := s.slots[t := s.slots[t].(rq := None)], drain := Claimed(t, s.slots[t].rq.value, cqe.status))
  }

  function UnmapLast(s: Host, t: nat): Host
    requires Shape(s) && t < |s.slots| && s.slots[t].mapped > 0
  {
    var n := s.slots[t].mapped - 1;
    var seg := s.slots[t].sgl[n];
    s.(slots := s.slots[t := s.slots[t].(mapped := n)],
       live := s.live - multiset{seg}, unmapped := s.unmapped + multiset{seg})
  }

  /** blk_mq_end_request: the request is reported and its tag may be used again. */
  function EndRequest(s: Host, t: nat, q: nat, report: BlkStatus): Host {
    s.(ended := s.ended + multiset{q}, reports := s.reports[q := report], busy := s.busy - {t})
  }

  function DoRelease(s: Host): Host
    requires Shape(s)
  {
    s.(rings := Advance(s.rings), hist := s.hist.(read := s.hist.read + 1), drain := Idle)
  }

  function DoSweepTake(s: Host): Host
    requires Shape(s) && s.sweep.At? && s.sweep.next < |s.slots|
  {
    var t := s.sweep.next;
    if s.slots[t].rq.None? then s.(sweep := At(t + 1))
    else s.(slots := s.slots[t := s.slots[t].(rq := None)], sweep := Took(t, s.slots[t].rq.value))
  }

  function DoReset(s: Host): Host
    requires Shape(s)
  {
    s.(rings := FreshRings(s.Depth()), hist := EMPTY, reqs := [], sweep := Off)
  }

  function Next(s: Host, step: Step): Host
    requires Shape(s) && Enabled(s, step)
  {
    match step
    case Submit(t, q, body, segs) => DoSubmit(s, t, q, body, segs)
    case Abort(t, segs, scribble) => DoAbort(s, t, segs, scribble)
    case Execute(status) => DoExecute(s, status)
    case Claim => DoClaim(s)
    case Unmap => UnmapLast(s, s.drain.tag)
    case Finish => EndRequest(s, s.drain.tag, s.drain.rq, BlkStatusOf(s.drain.status)).(drain := Settled)
    case Release => DoRelease(s)
    case SweepStart => s.(sweep := At(0))
    case SweepTake => DoSweepTake(s)
    case SweepUnmap => UnmapLast(s, s.sweep.tag)
    case SweepFinish => EndRequest(s, s.sweep.tag, s.sweep.rq, StsTimeout).(sweep := At(s.sweep.tag + 1))
    case Reset => DoReset(s)
  }

  // ----- tallies over the slots

  function Tally<T>(slots: seq<Slot>, f: Slot -> multiset<T>): multiset<T> {
    if slots == [] then multiset{} else f(slots[0]) + Tally(slots[1..], f)
  }

  lemma {:induction false} TallyUpdate<T>(slots: seq<Slot>, f: Slot -> multiset<T>, t: nat, x: Slot)
    requires t < |slots|
    ensures Tally(slots[t := x], f) + f(slots[t]) == Tally(slots, f) + f(x)
  {
    var head, rest := f(slots[0]), Tally(slots[1..], f);
    if t == 0 {
      assert slots[t := x][1..] == slots[1..];
      assert f(x) + rest + head == head + rest + f(x);
    } else {
      assert slots[t := x][1..] == slots[1..][t - 1 := x];
      TallyUpdate(slots[1..], f, t - 1, x);
      var rest' := Tally(slots[1..][t - 1 := x], f);
      assert slots[t := x][0] == slots[0] && slots[1..][t - 1] == slots[t];
      assert head + rest' + f(slots[t]) == head + (rest' + f(slots[t]));
      assert head + rest + f(x) == head + (rest + f(x));
    }
  }

  lemma {:induction false} TallyEmpty<T>(slots: seq<Slot>, f: Slot -> multiset<T>)
    requires forall t :: 0 <= t < |slots| ==> f(slots[t]) == multiset{}
    ensures Tally(slots, f) == multiset{}
  {
    if slots != [] {
      TallyEmpty(slots[1..], f);
    }
  }

  function Mapped(x: Slot): multiset<Segment> {
    if x.mapped <= |x.sgl| then multiset(x.sgl[..x.mapped]) else multiset{}
  }

  function Held(x: Slot): multiset<nat> {
    if x.rq.Some? then multiset{x.rq.value} else multiset{}
  }

  // ----- the invariant

  /** The oldest command whose tag may still be in use. */
  function Oldest(s: Host): nat {
    s.hist.read + if s.drain.Settled? then 1 else 0
  }

  /** The oldest command the handler has not looked at. */
  function Unseen(s: Host): nat {
    s.hist.read + if s.drain.Idle? then 0 else 1
  }

  ghost predicate TagsOk(s: Host)
    requires Shape(s)
  {
    && |s.reqs| == |s.hist.cmds|
    && (!s.drain.Idle? ==> s.hist.read < |s.hist.done| <= |s.hist.cmds|)
    && (forall i :: 0 <= i < |s.hist.cmds| ==> 1 <= s.hist.cmds[i].cid < s.Depth())
    && (forall i, j :: Oldest(s) <= i < j < |s.hist.cmds| ==> s.hist.cmds[i].cid != s.hist.cmds[j].cid)
  }

  /** Every command the handler has not looked at is owned by its request, unless the sweep took it. */
  ghost predicate OwnersOk(s: Host)
    requires Shape(s) && TagsOk(s)
  {
    && (forall i :: Unseen(s) <= i < |s.hist.cmds| ==>
          var owner := s.slots[s.hist.cmds[i].cid - 1].rq;
          owner == Some(s.reqs[i]) || (!s.sweep.Off? && owner.None?))
    && (s.drain.Claimed? ==>
          && s.hist.cmds[s.hist.read].cid == s.drain.tag + 1 && s.reqs[s.hist.read] == s.drain.rq
          && s.hist.done[s.hist.read].status == s.drain.status
          && s.slots[s.drain.tag].rq.None?)
    && (s.sweep.At? ==> forall t :: 0 <= t < s.sweep.next ==> s.slots[t].rq.None?)
    && (s.sweep.Took? ==> forall t :: 0 <= t <= s.sweep.tag ==> s.slots[t].rq.None?)
    && (s.drain.Claimed? && s.sweep.Took? ==> s.drain.tag != s.sweep.tag)
  }

  predicate InUse(s: Host, t: nat)
    requires t < |s.slots|
  {
    s.slots[t].rq.Some? || (s.drain.Claimed? && s.drain.tag == t) || (s.sweep.Took? && s.sweep.tag == t)
  }

  ghost predicate BusyOk(s: Host) {
    && (forall t :: t in s.busy ==> t < |s.slots|)
    && (forall t :: 0 <= t < |s.slots| ==> (t in s.busy <==> InUse(s, t)))
    && (forall t :: 0 <= t < |s.slots| && t !in s.busy ==> s.slots[t].mapped == 0)
  }

  /** The DMA ledger: what is mapped is what the slots say, and every mapping ever made is either
      live or was undone. */
  ghost predicate LedgerOk(s: Host) {
    s.live == Tally(s.slots, Mapped) && s.mappedEver == s.live + s.unmapped
  }

  /** Requests taken out of their slot but not yet ended. */
  function InHand(s: Host): multiset<nat> {
    (if s.drain.Claimed? then multiset{s.drain.rq} else multiset{}) +
    (if s.sweep.Took? then multiset{s.sweep.rq} else multiset{})
  }

  /** Every accepted request is in exactly one place: owned by a tag, in hand, or ended once. */
  ghost predicate CountOk(s: Host) {
    multiset(s.accepted) == Tally(s.slots, Held) + InHand(s) + s.ended
  }

  ghost predicate HostOk(s: Host) {
    && Shape(s) && RingsOk(s.rings, s.hist)
    && TagsOk(s) && OwnersOk(s) && BusyOk(s) && LedgerOk(s) && CountOk(s)
  }

  lemma FreshHostOk(depth: nat)
    requires depth >= 2
    ensures HostOk(FreshHost(depth))
  {
    FreshRingsOk(depth);
    var s := FreshHost(depth);
    assert forall t :: 0 <= t < |s.slots| ==> s.slots[t] == EmptySlot();
    TallyEmpty(s.slots, Mapped);
    TallyEmpty(s.slots, Held);
  }

  // ----- bounds

  /** Commands with distinct cids below `depth` are fewer than `depth`. */
  lemma CidsBound(cmds: seq<Command>, o: nat, depth: nat)
    requires o <= |cmds| && depth >= 1
    requires forall i :: o <= i < |cmds| ==> 1 <= cmds[i].cid < depth
    requires forall i, j :: o <= i < j < |cmds| ==> cmds[i].cid != cmds[j].cid
    ensures |cmds| - o <= depth - 1
  {
    Pigeonhole(seq(|cmds| - o, i requires 0 <= i < |cmds| - o => cmds[o + i].cid), depth - 1);
  }

  /** Tags in use are distinct and there are depth - 1 of them. */
  lemma OutstandingBound(s: Host)
    requires HostOk(s)
    ensures |s.hist.cmds| - Oldest(s) <= s.Depth() - 1
  {
    CidsBound(s.hist.cmds, Oldest(s), s.Depth());
  }

  /** In every reachable state at most `depth` completions are unread, at most depth - 1 commands
      wait in the submission ring, and so equal indices there mean that it is empty. */
  lemma RingBounds(s: Host)
    requires HostOk(s)
    ensures |s.hist.done| - s.hist.read <= s.Depth()
    ensures |s.hist.cmds| - |s.hist.done| <= s.Depth() - 1
    ensures s.rings.sqHead == s.rings.sqTail <==> |s.hist.done| == |s.hist.cmds|
  {
    OutstandingBound(s);
    if |s.hist.done| < |s.hist.cmds| {
      WindowDistinct(|s.hist.done|, |s.hist.cmds|, s.Depth());
    }
  }

  lemma FreeTagUnused(s: Host, t: nat, i: nat)
    requires Shape(s) && TagsOk(s) && OwnersOk(s) && BusyOk(s) && s.sweep.Off? && t < |s.slots| && t !in s.busy
    requires Oldest(s) <= i < |s.hist.cmds|
    ensures s.hist.cmds[i].cid != t + 1
  {
    assert InUse(s, s.hist.cmds[i].cid - 1);
  }

  /** A free tag leaves room for one more command. */
  lemma SubmitRoom(s: Host, t: nat)
    requires HostOk(s) && s.sweep.Off? && t < |s.slots| && t !in s.busy
    ensures forall i :: Oldest(s) <= i < |s.hist.cmds| ==> s.hist.cmds[i].cid != t + 1
    ensures |s.hist.cmds| < s.hist.read + s.Depth()
  {
    forall i | Oldest(s) <= i < |s.hist.cmds|
      ensures s.hist.cmds[i].cid != t + 1
    {
      FreeTagUnused(s, t, i);
    }
    CidsBound(s.hist.cmds + [Command(t + 1, ZERO_BODY)], Oldest(s), s.Depth());
  }

  // ----- every step keeps the invariant

  /** A slot that maps and holds nothing takes over `segs` for request `q`. */
  lemma FillTallies(slots: seq<Slot>, t: nat, x: Slot, q: nat, segs: seq<Segment>)
    requires t < |slots| && Mapped(slots[t]) == multiset{} && Held(slots[t]) == multiset{}
    requires Mapped(x) == multiset(segs) && Held(x) == multiset{q}
    ensures Tally(slots[t := x], Mapped) == Tally(slots, Mapped) + multiset(segs)
    ensures Tally(slots[t := x], Held) == Tally(slots, Held) + multiset{q}
  {
    TallyUpdate(slots, Mapped, t, x);
    TallyUpdate(slots, Held, t, x);
  }

  lemma SubmitTallies(s: Host, t: nat, q: nat, body: Body, segs: seq<Segment>)
    requires Shape(s) && LedgerOk(s) && CountOk(s) && t < |s.slots| && |segs| <= MAX_SGL && q !in s.accepted
    requires s.slots[t].rq.None? && s.slots[t].mapped == 0
    ensures var s' := DoSubmit(s, t, q, body, segs); LedgerOk(s') && CountOk(s')
  {
    var s' := DoSubmit(s, t, q, body, segs);
    var x, held, hand := s'.slots[t], Tally(s.slots, Held), InHand(s);
    assert x.sgl[..|segs|] == segs;
    FillTallies(s.slots, t, x, q, segs);
    assert s.live + s.unmapped + multiset(segs) == s.live + multiset(segs) + s.unmapped;
    assert multiset(s'.accepted) == multiset(s.accepted) + multiset{q};
    assert held + hand + s.ended + multiset{q} == held + multiset{q} + hand + s.ended;
  }

  lemma SubmitOwners(s: Host, t: nat, q: nat, body: Body, segs: seq<Segment>)
    requires Shape(s) && TagsOk(s) && OwnersOk(s) && Enabled(s, Submit(t, q, body, segs))
    requires forall i :: Oldest(s) <= i < |s.hist.cmds| ==> s.hist.cmds[i].cid != t + 1
    requires !InUse(s, t) && Shape(DoSubmit(s, t, q, body, segs))
    ensures var s' := DoSubmit(s, t, q, body, segs); TagsOk(s') && OwnersOk(s')
  {
  }

  lemma SubmitKeeps(s: Host, t: nat, q: nat, body: Body, segs: seq<Segment>)
    requires HostOk(s) && Enabled(s, Submit(t, q, body, segs))
    ensures HostOk(DoSubmit(s, t, q, body, segs))
  {
    SubmitRoom(s, t);
    var cmd := Command(t + 1, body);
    PublishKeeps(s.rings, s.hist, cmd);
    RingsWellFormed(Publish(s.rings, cmd), s.hist.(cmds := s.hist.cmds + [cmd]));
    assert !InUse(s, t);
    SubmitTallies(s, t, q, body, segs);
    SubmitOwners(s, t, q, body, segs);
    SubmitBusy(s, t, q, body, segs);
  }

  lemma SubmitBusy(s: Host, t: nat, q: nat, body: Body, segs: seq<Segment>)
    requires Shape(s) && BusyOk(s) && t < |s.slots| && |segs| <= MAX_SGL
    ensures BusyOk(DoSubmit(s, t, q, body, segs))
  {
    var s' := DoSubmit(s, t, q, body, segs);
    assert forall u :: 0 <= u < |s.slots| && u != t ==> InUse(s', u) == InUse(s, u);
  }

  lemma ScribbleKeeps(r: Rings, h: History, cmd: Command)
    requires RingsOk(r, h) && |h.cmds| - |h.done| < r.depth
    ensures r.WellFormed() && RingsOk(r.(sq := r.sq[r.sqTail := cmd]), h)
  {
    forall i | |h.done| <= i < |h.cmds|
      ensures i % r.depth != r.sqTail
    {
      WindowDistinct(i, |h.cmds|, r.depth);
    }
  }

  lemma ScratchTallies(slots: seq<Slot>, t: nat, y: Slot)
    requires t < |slots| && y.rq == slots[t].rq && y.mapped == 0 && slots[t].mapped == 0
    ensures Tally(slots[t := y], Mapped) == Tally(slots, Mapped) && Tally(slots[t := y], Held) == Tally(slots, Held)
  {
    UnmapHeld(slots, t, y);
    TallyUpdate(slots, Mapped, t, y);
    assert y.sgl[..0] == [] && slots[t].sgl[..0] == [];
    var none: multiset<Segment> := multiset{};
    assert Mapped(y) == none && Mapped(slots[t]) == none;
    AddNothing(Tally(slots[t := y], Mapped));
    AddNothing(Tally(slots, Mapped));
  }

  lemma AddNothing<T>(a: multiset<T>)
    ensures a + multiset{} == a
  {
  }

  lemma Regroup<T>(a: multiset<T>, b: multiset<T>, c: multiset<T>)
    ensures a + b + c == a + (b + c)
  {
  }

  lemma AbortTallies(s: Host, t: nat, segs: seq<Segment>, scribble: Option<Command>)
    requires Shape(s) && LedgerOk(s) && CountOk(s) && t < |s.slots| && |segs| <= MAX_SGL && s.slots[t].mapped == 0
    ensures var s' := DoAbort(s, t, segs, scribble); LedgerOk(s') && CountOk(s')
  {
    ScratchTallies(s.slots, t, DoAbort(s, t, segs, scribble).slots[t]);
    Regroup(s.live, s.unmapped, multiset(segs));
  }

  lemma AbortBusy(s: Host, t: nat, segs: seq<Segment>, scribble: Option<Command>)
    requires Shape(s) && BusyOk(s) && t < |s.slots| && |segs| <= MAX_SGL
    ensures BusyOk(DoAbort(s, t, segs, scribble))
  {
    var s' := DoAbort(s, t, segs, scribble);
    assert forall u :: 0 <= u < |s.slots| ==> InUse(s', u) == InUse(s, u);
  }

  lemma AbortKeeps(s: Host, t: nat, segs: seq<Segment>, scribble: Option<Command>)
    requires HostOk(s) && Enabled(s, Abort(t, segs, scribble))
    ensures HostOk(DoAbort(s, t, segs, scribble))
  {
    AbortRings(s, t, segs, scribble);
    AbortTallies(s, t, segs, scribble);
    AbortBusy(s, t, segs, scribble);
    SameOwners(s, DoAbort(s, t, segs, scribble));
  }

  lemma AbortRings(s: Host, t: nat, segs: seq<Segment>, scribble: Option<Command>)
    requires HostOk(s) && t < |s.slots| && |segs| <= MAX_SGL
    ensures var s' := DoAbort(s, t, segs, scribble); Shape(s') && RingsOk(s'.rings, s'.hist)
  {
    RingBounds(s);
    if scribble.Some? { ScribbleKeeps(s.rings, s.hist, scribble.value); }
  }

  lemma SameOwners(s: Host, s': Host)
    requires Shape(s) && Shape(s') && TagsOk(s) && OwnersOk(s) && |s'.slots| == |s.slots|
    requires s'.hist == s.hist && s'.reqs == s.reqs && s'.drain == s.drain && s'.sweep == s.sweep && s'.rings.depth == s.rings.depth
    requires forall u :: 0 <= u < |s.slots| ==> s'.slots[u].rq == s.slots[u].rq
    ensures TagsOk(s') && OwnersOk(s')
  {
  }

  lemma ExecuteKeeps(s: Host, status: int)
    requires HostOk(s) && Enabled(s, Execute(status))
    ensures HostOk(DoExecute(s, status))
  {
    ProcessKeeps(s.rings, s.hist, status);
    RingsWellFormed(Process(s.rings, status), DoExecute(s, status).hist);
    ExecuteOwners(s, DoExecute(s, status));
    SameBusy(s, DoExecute(s, status));
  }

  lemma ExecuteOwners(s: Host, s': Host)
    requires Shape(s) && Shape(s') && TagsOk(s) && OwnersOk(s) && s'.slots == s.slots && s'.drain == s.drain && s'.sweep == s.sweep
    requires s'.hist.cmds == s.hist.cmds && s'.hist.read == s.hist.read && s'.reqs == s.reqs && s'.rings.depth == s.rings.depth
    requires s.hist.done <= s'.hist.done && |s'.hist.done| <= |s.hist.cmds|
    ensures TagsOk(s') && OwnersOk(s')
  {
  }

  lemma ReleaseKeeps(s: Host)
    requires HostOk(s) && Enabled(s, Release)
    ensures HostOk(DoRelease(s))
  {
    var s' := DoRelease(s);
    ReleaseRings(s);
    ReleaseOwners(s, s');
    SameBusy(s, s');
    assert InHand(s') == InHand(s);
  }

  lemma ReleaseRings(s: Host)
    requires Shape(s) && RingsOk(s.rings, s.hist) && s.hist.read < |s.hist.done|
    ensures var s' := DoRelease(s); Shape(s') && RingsOk(s'.rings, s'.hist)
  {
    AdvanceKeeps(s.rings, s.hist);
    RingsWellFormed(Advance(s.rings), DoRelease(s).hist);
  }

  lemma ReleaseOwners(s: Host, s': Host)
    requires Shape(s) && Shape(s') && TagsOk(s) && OwnersOk(s) && s.drain.Settled? && s'.drain.Idle? && s'.sweep == s.sweep
    requires s'.hist == s.hist.(read := s.hist.read + 1) && s'.reqs == s.reqs && s'.slots == s.slots && s'.rings.depth == s.rings.depth
    ensures TagsOk(s') && OwnersOk(s')
  {
  }

  /** What the handler takes is the request its completion answers: in a running queue it always
      finds that request, and during a sweep it finds that request or none. */
  lemma ClaimTakesOwn(s: Host)
    requires HostOk(s) && Enabled(s, Claim)
    ensures s.hist.read < |s.hist.done| <= |s.reqs|
    ensures var s' := DoClaim(s);
            var t := s.hist.cmds[s.hist.read].cid - 1;
            || (s.slots[t].rq == Some(s.reqs[s.hist.read])
                && s' == s.(slots := s.slots[t := s.slots[t].(rq := None)],
                            drain := Claimed(t, s.reqs[s.hist.read], s.hist.done[s.hist.read].status)))
            || (!s.sweep.Off? && s.slots[t].rq.None? && s' == s.(drain := Settled))
  {
    PhaseTestExact(s.rings, s.hist);
  }

  lemma TakeTallies(slots: seq<Slot>, t: nat, q: nat)
    requires t < |slots| && slots[t].rq == Some(q)
    ensures var slots' := slots[t := slots[t].(rq := None)];
            Tally(slots', Mapped) == Tally(slots, Mapped) && Tally(slots', Held) + multiset{q} == Tally(slots, Held)
  {
    var x := slots[t].(rq := None);
    TallyUpdate(slots, Mapped, t, x);
    TallyUpdate(slots, Held, t, x);
    assert Mapped(x) == Mapped(slots[t]) && Held(x) == multiset{} && Held(slots[t]) == multiset{q};
    var a, b, m := Tally(slots[t := x], Mapped), Tally(slots, Mapped), Mapped(x);
    assert a == a + m - m && b == b + m - m;
  }

  lemma ClaimOwners(s: Host, t: nat)
    requires HostOk(s) && s.drain.Idle? && s.hist.read < |s.hist.done| && s.hist.cmds[s.hist.read].cid == t + 1
    requires s.slots[t].rq == Some(s.reqs[s.hist.read])
    ensures var s' := s.(slots := s.slots[t := s.slots[t].(rq := None)],
                         drain := Claimed(t, s.reqs[s.hist.read], s.hist.done[s.hist.read].status));
            Shape(s') && TagsOk(s') && OwnersOk(s')
  {
  }

  lemma ClaimBusy(s: Host, t: nat, q: nat, status: int)
    requires BusyOk(s) && t < |s.slots| && s.slots[t].rq == Some(q) && s.drain.Idle?
    ensures BusyOk(s.(slots := s.slots[t := s.slots[t].(rq := None)], drain := Claimed(t, q, status)))
  {
    var s' := s.(slots := s.slots[t := s.slots[t].(rq := None)], drain := Claimed(t, q, status));
    assert forall u :: 0 <= u < |s.slots| ==> InUse(s', u) == InUse(s, u);
  }

  /** A request that leaves its slot is in the hand of whoever took it. */
  lemma TakeCount(s: Host, s': Host, q: nat)
    requires CountOk(s) && s'.accepted == s.accepted && s'.ended == s.ended
    requires Tally(s'.slots, Held) + multiset{q} == Tally(s.slots, Held) && InHand(s') == InHand(s) + multiset{q}
    ensures CountOk(s')
  {
    var a, h, e, g := Tally(s'.slots, Held), InHand(s), s.ended, multiset{q};
    assert a + g + h + e == a + (h + g) + e;
  }

  lemma ClaimHoldKeeps(s: Host, t: nat, q: nat, status: int)
    requires HostOk(s) && s.drain.Idle? && s.hist.read < |s.hist.done| && s.hist.cmds[s.hist.read].cid == t + 1
    requires s.reqs[s.hist.read] == q && s.hist.done[s.hist.read].status == status && s.slots[t].rq == Some(q)
    ensures HostOk(s.(slots := s.slots[t := s.slots[t].(rq := None)], drain := Claimed(t, q, status)))
  {
    var s' := s.(slots := s.slots[t := s.slots[t].(rq := None)], drain := Claimed(t, q, status));
    TakeTallies(s.slots, t, q);
    assert InHand(s') == InHand(s) + multiset{q};
    TakeCount(s, s', q);
    ClaimOwners(s, t);
    ClaimBusy(s, t, q, status);
  }

  lemma ClaimSkipKeeps(s: Host)
    requires HostOk(s) && s.drain.Idle? && s.hist.read < |s.hist.done|
    requires !s.sweep.Off? && s.slots[s.hist.cmds[s.hist.read].cid - 1].rq.None?
    ensures HostOk(s.(drain := Settled))
  {
    var s' := s.(drain := Settled);
    assert forall u :: 0 <= u < |s.slots| ==> InUse(s', u) == InUse(s, u);
  }

  lemma ClaimKeeps(s: Host)
    requires HostOk(s) && Enabled(s, Claim)
    ensures HostOk(DoClaim(s))
  {
    ClaimTakesOwn(s);
    var t := s.hist.cmds[s.hist.read].cid - 1;
    if s.slots[t].rq.Some? {
      ClaimHoldKeeps(s, t, s.reqs[s.hist.read], s.hist.done[s.hist.read].status);
    } else {
      ClaimSkipKeeps(s);
    }
  }

  lemma SweepTakeOwners(s: Host, t: nat, q: nat)
    requires HostOk(s) && s.sweep == At(t) && t < |s.slots| && s.slots[t].rq == Some(q)
    ensures var s' := s.(slots := s.slots[t := s.slots[t].(rq := None)], sweep := Took(t, q));
            Shape(s') && TagsOk(s') && OwnersOk(s')
  {
  }

  lemma SweepTakeBusy(s: Host, t: nat, q: nat)
    requires BusyOk(s) && t < |s.slots| && s.slots[t].rq == Some(q) && s.sweep.At?
    ensures BusyOk(s.(slots := s.slots[t := s.slots[t].(rq := None)], sweep := Took(t, q)))
  {
    var s' := s.(slots := s.slots[t := s.slots[t].(rq := None)], sweep := Took(t, q));
    assert forall u :: 0 <= u < |s.slots| ==> InUse(s', u) == InUse(s, u);
  }

  lemma SweepSkipKeeps(s: Host, t: nat)
    requires HostOk(s) && s.sweep == At(t) && t < |s.slots| && s.slots[t].rq.None?
    ensures HostOk(s.(sweep := At(t + 1)))
  {
    var s' := s.(sweep := At(t + 1));
    SweepSkipOwners(s, t);
    SameBusy(s, s');
  }

  lemma SweepSkipOwners(s: Host, t: nat)
    requires Shape(s) && TagsOk(s) && OwnersOk(s) && s.sweep == At(t) && t < |s.slots| && s.slots[t].rq.None?
    ensures var s' := s.(sweep := At(t + 1)); Shape(s') && TagsOk(s') && OwnersOk(s')
  {
    var s' := s.(sweep := At(t + 1));
    assert Unseen(s') == Unseen(s) && Oldest(s') == Oldest(s);
    assert forall u :: 0 <= u < t + 1 ==> s.slots[u].rq.None?;
  }

  /** Tags in use do not change when no request changes hands. */
  lemma SameBusy(s: Host, s': Host)
    requires BusyOk(s) && s'.slots == s.slots && s'.busy == s.busy && InHandTags(s') == InHandTags(s)
    ensures BusyOk(s')
  {
    assert forall u :: 0 <= u < |s.slots| ==> InUse(s', u) == InUse(s, u);
  }

  /** The tags of requests taken out of their slot but not yet ended. */
  function InHandTags(s: Host): (Option<nat>, Option<nat>) {
    (if s.drain.Claimed? then Some(s.drain.tag) else None, if s.sweep.Took? then Some(s.sweep.tag) else None)
  }

  lemma SweepHoldKeeps(s: Host, t: nat, q: nat)
    requires HostOk(s) && s.sweep == At(t) && t < |s.slots| && s.slots[t].rq == Some(q)
    ensures HostOk(s.(slots := s.slots[t := s.slots[t].(rq := None)], sweep := Took(t, q)))
  {
    var s' := s.(slots := s.slots[t := s.slots[t].(rq := None)], sweep := Took(t, q));
    TakeTallies(s.slots, t, q);
    assert InHand(s') == InHand(s) + multiset{q};
    TakeCount(s, s', q);
    SweepTakeOwners(s, t, q);
    SweepTakeBusy(s, t, q);
  }

  lemma SweepTakeKeeps(s: Host)
    requires HostOk(s) && Enabled(s, SweepTake)
    ensures HostOk(DoSweepTake(s))
  {
    var t := s.sweep.next;
    if s.slots[t].rq.Some? {
      SweepHoldKeeps(s, t, s.slots[t].rq.value);
    } else {
      SweepSkipKeeps(s, t);
    }
  }

  lemma UnmapTallies(slots: seq<Slot>, t: nat)
    requires t < |slots| && 0 < slots[t].mapped <= |slots[t].sgl|
    ensures var x := slots[t];
            var y := x.(mapped := x.mapped - 1);
            Tally(slots, Mapped) == Tally(slots[t := y], Mapped) + multiset{x.sgl[y.mapped]}
  {
    var x := slots[t];
    var n := x.mapped - 1;
    var y := x.(mapped := n);
    assert x.sgl[..n + 1] == x.sgl[..n] + [x.sgl[n]];
    TallyUpdate(slots, Mapped, t, y);
    CancelSum(Tally(slots[t := y], Mapped), Tally(slots, Mapped), Mapped(y), multiset{x.sgl[n]});
  }

  lemma CancelSum<T>(a: multiset<T>, b: multiset<T>, m: multiset<T>, g: multiset<T>)
    requires a + (m + g) == b + m
    ensures b == a + g
  {
    assert a + g == a + (m + g) - m;
    assert b == b + m - m;
  }

  lemma UnmapHeld(slots: seq<Slot>, t: nat, y: Slot)
    requires t < |slots| && y.rq == slots[t].rq
    ensures Tally(slots[t := y], Held) == Tally(slots, Held)
  {
    TallyUpdate(slots, Held, t, y);
    var none: multiset<nat> := multiset{};
    assert Held(y) + none == Held(y);
    CancelSum(Tally(slots[t := y], Held), Tally(slots, Held), Held(y), none);
  }

  lemma LedgerMove<T>(live: multiset<T>, rest: multiset<T>, gone: multiset<T>, x: T)
    requires live == rest + multiset{x}
    ensures x in live && live - multiset{x} == rest && live + gone == rest + (gone + multiset{x})
  {
  }

  /** Only live mappings are undone. */
  lemma UnmapLedger(s: Host, t: nat)
    requires Shape(s) && LedgerOk(s) && t < |s.slots| && s.slots[t].mapped > 0
    ensures s.slots[t].sgl[s.slots[t].mapped - 1] in s.live
    ensures LedgerOk(UnmapLast(s, t)) && Tally(UnmapLast(s, t).slots, Held) == Tally(s.slots, Held)
  {
    var y := s.slots[t].(mapped := s.slots[t].mapped - 1);
    UnmapTallies(s.slots, t);
    UnmapHeld(s.slots, t, y);
    assert UnmapLast(s, t).slots == s.slots[t := y];
    LedgerMove(s.live, Tally(s.slots[t := y], Mapped), s.unmapped, y.sgl[y.mapped]);
  }

  lemma UnmapKeeps(s: Host, t: nat)
    requires HostOk(s) && t < |s.slots| && s.slots[t].mapped > 0
    ensures HostOk(UnmapLast(s, t))
  {
    UnmapLedger(s, t);
    UnmapCount(s, t);
    UnmapOwners(s, t);
    UnmapBusy(s, t);
  }

  lemma UnmapCount(s: Host, t: nat)
    requires Shape(s) && CountOk(s) && t < |s.slots| && s.slots[t].mapped > 0
    requires Tally(UnmapLast(s, t).slots, Held) == Tally(s.slots, Held)
    ensures Shape(UnmapLast(s, t)) && CountOk(UnmapLast(s, t))
  {
    assert InHand(UnmapLast(s, t)) == InHand(s);
  }

  lemma UnmapOwners(s: Host, t: nat)
    requires Shape(s) && TagsOk(s) && OwnersOk(s) && t < |s.slots| && s.slots[t].mapped > 0
    ensures TagsOk(UnmapLast(s, t)) && OwnersOk(UnmapLast(s, t))
  {
    var s' := UnmapLast(s, t);
    assert forall u :: 0 <= u < |s.slots| ==> s'.slots[u].rq == s.slots[u].rq;
    SameOwners(s, s');
  }

  lemma UnmapBusy(s: Host, t: nat)
    requires Shape(s) && BusyOk(s) && t < |s.slots| && s.slots[t].mapped > 0
    ensures BusyOk(UnmapLast(s, t))
  {
    var s' := UnmapLast(s, t);
    assert forall u :: 0 <= u < |s.slots| ==> InUse(s', u) == InUse(s, u);
  }

  lemma FinishCount(held: multiset<nat>, other: multiset<nat>, ended: multiset<nat>, q: nat)
    ensures held + (multiset{q} + other) + ended == held + (multiset{} + other) + (ended + multiset{q})
    ensures held + (other + multiset{q}) + ended == held + (other + multiset{}) + (ended + multiset{q})
  {
  }

  /** Freeing a tag nobody owns any more. */
  lemma EndBusy(s: Host, s': Host, t: nat)
    requires BusyOk(s) && t < |s.slots| && s'.slots == s.slots && s'.busy == s.busy - {t} && s.slots[t].mapped == 0
    requires forall u :: 0 <= u < |s.slots| ==> InUse(s', u) == (InUse(s, u) && u != t)
    ensures BusyOk(s')
  {
  }

  lemma FinishKeeps(s: Host)
    requires HostOk(s) && Enabled(s, Finish)
    ensures HostOk(Next(s, Finish))
  {
    var s' := Next(s, Finish);
    FinishCount(Tally(s.slots, Held), if s.sweep.Took? then multiset{s.sweep.rq} else multiset{}, s.ended, s.drain.rq);
    EndBusy(s, s', s.drain.tag);
    FinishOwners(s, s');
  }

  lemma FinishOwners(s: Host, s': Host)
    requires Shape(s) && Shape(s') && TagsOk(s) && OwnersOk(s) && s.drain.Claimed? && s'.drain.Settled? && s'.sweep == s.sweep
    requires s'.hist == s.hist && s'.reqs == s.reqs && s'.slots == s.slots && s'.rings == s.rings
    ensures TagsOk(s') && OwnersOk(s')
  {
  }

  lemma SweepFinishKeeps(s: Host)
    requires HostOk(s) && Enabled(s, SweepFinish)
    ensures HostOk(Next(s, SweepFinish))
  {
    var s' := Next(s, SweepFinish);
    FinishCount(Tally(s.slots, Held), if s.drain.Claimed? then multiset{s.drain.rq} else multiset{}, s.ended, s.sweep.rq);
    EndBusy(s, s', s.sweep.tag);
    SweepFinishOwners(s, s');
  }

  lemma SweepFinishOwners(s: Host, s': Host)
    requires Shape(s) && Shape(s') && TagsOk(s) && OwnersOk(s) && s.sweep.Took? && s'.sweep == At(s.sweep.tag + 1) && s'.drain == s.drain
    requires s'.hist == s.hist && s'.reqs == s.reqs && s'.slots == s.slots && s'.rings == s.rings
    ensures TagsOk(s') && OwnersOk(s')
  {
  }

  lemma ResetKeeps(s: Host)
    requires HostOk(s) && Enabled(s, Reset)
    ensures HostOk(DoReset(s))
  {
    FreshRingsOk(s.Depth());
  }

  lemma SweepStartKeeps(s: Host)
    requires HostOk(s) && Enabled(s, SweepStart)
    ensures HostOk(Next(s, SweepStart))
  {
    var s' := Next(s, SweepStart);
    SweepStartOwners(s, s');
    SameBusy(s, s');
    assert InHand(s') == InHand(s);
  }

  lemma SweepStartOwners(s: Host, s': Host)
    requires Shape(s) && TagsOk(s) && OwnersOk(s) && s.sweep.Off? && s' == s.(sweep := At(0))
    ensures Shape(s') && TagsOk(s') && OwnersOk(s')
  {
  }

  lemma DrainStepKeeps(s: Host, step: Step)
    requires HostOk(s) && Enabled(s, step) && (step.Claim? || step.Unmap? || step.Finish? || step.Release?)
    ensures HostOk(Next(s, step))
  {
    match step
    case Claim => ClaimKeeps(s);
    case Unmap => UnmapKeeps(s, s.drain.tag);
    case Finish => FinishKeeps(s);
    case Release => ReleaseKeeps(s);
  }

  lemma SweepStepKeeps(s: Host, step: Step)
    requires HostOk(s) && Enabled(s, step) && (step.SweepStart? || step.SweepTake? || step.SweepUnmap? || step.SweepFinish?)
    ensures HostOk(Next(s, step))
  {
    match step
    case SweepStart => SweepStartKeeps(s);
    case SweepTake => SweepTakeKeeps(s);
    case SweepUnmap => UnmapKeeps(s, s.sweep.tag);
    case SweepFinish => SweepFinishKeeps(s);
  }

  lemma StepKeeps(s: Host, step: Step)
    requires HostOk(s) && Enabled(s, step)
    ensures HostOk(Next(s, step))
  {
    match step
    case Submit(t, q, body, segs) => SubmitKeeps(s, t, q, body, segs);
    case Abort(t, segs, scribble) => AbortKeeps(s, t, segs, scribble);
    case Execute(status) => ExecuteKeeps(s, status);
    case Claim => DrainStepKeeps(s, step);
    case Unmap => DrainStepKeeps(s, step);
    case Finish => DrainStepKeeps(s, step);
    case Release => DrainStepKeeps(s, step);
    case Reset => ResetKeeps(s);
    case _ => SweepStepKeeps(s, step);
  }
}
