/** Runs across a reset: where the completion that ends a request came from, and what the reset
    needs of the interrupt handler. */
module HostReset {
  import opened Ring
  import opened HostProtocol
  import opened HostRuns

  lemma {:induction false} Prefix(s: Host, steps: seq<Step>, n: nat)
    requires Legal(s, steps) && n <= |steps|
    ensures Legal(s, steps[..n]) && Legal(After(s, steps[..n]), steps[n..])
    ensures After(After(s, steps[..n]), steps[n..]) == After(s, steps)
    decreases |steps|
  {
    if n == 0 {
      assert steps[..0] == [] && steps[0..] == steps;
    } else {
      Prefix(Next(s, steps[0]), steps[1..], n - 1);
      assert steps[..n][1..] == steps[1..][..n - 1] && steps[1..][n - 1..] == steps[n..];
    }
  }

  // ----- the origin of a completion

  predicate NoReset(steps: seq<Step>, i: nat) {
    forall k :: i <= k < |steps| ==> !steps[k].Reset?
  }

  /** Step `i` submitted request `rq` under `cid` as the k-th command since the last reset. */
  predicate SubmittedBy(s0: Host, steps: seq<Step>, i: nat, k: nat, rq: nat, cid: int) {
    && i < |steps| && Legal(s0, steps[..i]) && NoReset(steps, i)
    && steps[i].Submit? && steps[i].tag + 1 == cid && steps[i].rq == rq
    && |After(s0, steps[..i]).hist.cmds| == k
  }

  /** Step `j` made the device write the k-th completion since the last reset, with `status`. */
  predicate PostedBy(s0: Host, steps: seq<Step>, j: nat, k: nat, status: int) {
    && j < |steps| && Legal(s0, steps[..j]) && NoReset(steps, j)
    && steps[j] == Execute(status)
    && |After(s0, steps[..j]).hist.done| == k
  }

  ghost predicate Submitted(s0: Host, steps: seq<Step>, k: nat, rq: nat, cid: int) {
    exists i :: SubmittedBy(s0, steps, i, k, rq, cid)
  }

  /** The k-th command since the last reset was submitted and later, by its own completion, answered. */
  ghost predicate Answered(s0: Host, steps: seq<Step>, k: nat, rq: nat, cid: int, status: int) {
    exists i, j :: i < j && SubmittedBy(s0, steps, i, k, rq, cid) && PostedBy(s0, steps, j, k, status)
  }

  lemma LongerPrefix(steps: seq<Step>, step: Step, i: nat)
    requires i < |steps| && !step.Reset? && NoReset(steps, i)
    ensures (steps + [step])[..i] == steps[..i] && (steps + [step])[i] == steps[i] && NoReset(steps + [step], i)
  {
  }

  lemma SubmittedLonger(s0: Host, steps: seq<Step>, step: Step, k: nat, rq: nat, cid: int)
    requires Submitted(s0, steps, k, rq, cid) && !step.Reset?
    ensures Submitted(s0, steps + [step], k, rq, cid)
  {
    var i :| SubmittedBy(s0, steps, i, k, rq, cid);
    LongerPrefix(steps, step, i);
    assert SubmittedBy(s0, steps + [step], i, k, rq, cid);
  }

  lemma AnsweredLonger(s0: Host, steps: seq<Step>, step: Step, k: nat, rq: nat, cid: int, status: int)
    requires Answered(s0, steps, k, rq, cid, status) && !step.Reset?
    ensures Answered(s0, steps + [step], k, rq, cid, status)
  {
    var i, j :| i < j && SubmittedBy(s0, steps, i, k, rq, cid) && PostedBy(s0, steps, j, k, status);
    LongerPrefix(steps, step, i);
    LongerPrefix(steps, step, j);
    assert SubmittedBy(s0, steps + [step], i, k, rq, cid) && PostedBy(s0, steps + [step], j, k, status);
  }

  /** Every entry of a history happened in `steps`. */
  ghost predicate Accounted(s0: Host, steps: seq<Step>, cmds: seq<Command>, reqs: seq<nat>, done: seq<Cqe>)
    requires |done| <= |cmds| == |reqs|
  {
    && (forall k :: 0 <= k < |cmds| ==> Submitted(s0, steps, k, reqs[k], cmds[k].cid))
    && (forall k :: 0 <= k < |done| ==> Answered(s0, steps, k, reqs[k], cmds[k].cid, done[k].status))
  }

  ghost predicate HistoryAccounted(s0: Host, steps: seq<Step>, t: Host) {
    |t.hist.done| <= |t.hist.cmds| == |t.reqs| && Accounted(s0, steps, t.hist.cmds, t.reqs, t.hist.done)
  }

  lemma AccountLonger(s0: Host, steps: seq<Step>, step: Step, cmds: seq<Command>, reqs: seq<nat>, done: seq<Cqe>)
    requires |done| <= |cmds| == |reqs| && Accounted(s0, steps, cmds, reqs, done) && !step.Reset?
    ensures Accounted(s0, steps + [step], cmds, reqs, done)
  {
    forall k | 0 <= k < |cmds|
      ensures Submitted(s0, steps + [step], k, reqs[k], cmds[k].cid)
    {
      SubmittedLonger(s0, steps, step, k, reqs[k], cmds[k].cid);
    }
    forall k | 0 <= k < |done|
      ensures Answered(s0, steps + [step], k, reqs[k], cmds[k].cid, done[k].status)
    {
      AnsweredLonger(s0, steps, step, k, reqs[k], cmds[k].cid, done[k].status);
    }
  }

  lemma AccountSubmit(s0: Host, steps: seq<Step>, cmds: seq<Command>, reqs: seq<nat>, done: seq<Cqe>, cmd: Command, rq: nat)
    requires |done| <= |cmds| == |reqs| && Accounted(s0, steps, cmds, reqs, done) && Submitted(s0, steps, |cmds|, rq, cmd.cid)
    ensures Accounted(s0, steps, cmds + [cmd], reqs + [rq], done)
  {
  }

  lemma AccountExecute(s0: Host, steps: seq<Step>, cmds: seq<Command>, reqs: seq<nat>, done: seq<Cqe>, cqe: Cqe)
    requires |done| < |cmds| == |reqs| && Accounted(s0, steps, cmds, reqs, done)
    requires Answered(s0, steps, |done|, reqs[|done|], cmds[|done|].cid, cqe.status)
    ensures Accounted(s0, steps, cmds, reqs, done + [cqe])
  {
  }

  lemma NewSubmit(s0: Host, steps: seq<Step>, step: Step)
    requires Legal(s0, steps) && step.Submit?
    ensures Submitted(s0, steps + [step], |After(s0, steps).hist.cmds|, step.rq, step.tag + 1)
  {
    var all, i := steps + [step], |steps|;
    assert all[..i] == steps;
    assert SubmittedBy(s0, all, i, |After(s0, steps).hist.cmds|, step.rq, step.tag + 1);
  }

  lemma NewAnswer(s0: Host, steps: seq<Step>, status: int, rq: nat, cid: int)
    requires Legal(s0, steps) && Submitted(s0, steps, |After(s0, steps).hist.done|, rq, cid)
    ensures Answered(s0, steps + [Execute(status)], |After(s0, steps).hist.done|, rq, cid, status)
  {
    var all, j, k := steps + [Execute(status)], |steps|, |After(s0, steps).hist.done|;
    var i :| SubmittedBy(s0, steps, i, k, rq, cid);
    LongerPrefix(steps, Execute(status), i);
    assert all[..j] == steps;
    assert SubmittedBy(s0, all, i, k, rq, cid) && PostedBy(s0, all, j, k, status);
  }

  /** One more step keeps the account. */
  lemma AccountStep(s0: Host, steps: seq<Step>, step: Step)
    requires Legal(s0, steps) && Shape(After(s0, steps)) && Enabled(After(s0, steps), step)
    requires HistoryAccounted(s0, steps, After(s0, steps))
    ensures HistoryAccounted(s0, steps + [step], Next(After(s0, steps), step))
  {
    var s := After(s0, steps);
    var h := s.hist;
    if !step.Reset? {
      AccountLonger(s0, steps, step, h.cmds, s.reqs, h.done);
    }
    if step.Submit? {
      NewSubmit(s0, steps, step);
      AccountSubmit(s0, steps + [step], h.cmds, s.reqs, h.done, Command(step.tag + 1, step.body), step.rq);
    } else if step.Execute? {
      var k := |h.done|;
      NewAnswer(s0, steps, step.status, s.reqs[k], h.cmds[k].cid);
      AccountExecute(s0, steps + [step], h.cmds, s.reqs, h.done, NextCqe(h, step.status, s.Depth()));
    }
  }

  /** From empty rings, every command and completion of the history is accounted for. */
  lemma {:induction false} RunAccounted(s0: Host, steps: seq<Step>)
    requires HostOk(s0) && s0.hist == EMPTY && Legal(s0, steps)
    ensures HistoryAccounted(s0, steps, After(s0, steps))
    decreases |steps|
  {
    if steps != [] {
      var n := |steps| - 1;
      Prefix(s0, steps, n);
      RunAccounted(s0, steps[..n]);
      assert steps[n..] == [steps[n]] && steps[..n] + [steps[n]] == steps;
      One(After(s0, steps[..n]), steps[n]);
      AccountStep(s0, steps[..n], steps[n]);
    }
  }

  /** From empty rings, whenever the handler holds a request: that request was submitted under
      its tag by a step of the run, and a later step of the run, with no reset since, wrote the very
      completion the handler read, carrying the status it will end the request with. */
  lemma ClaimOrigin(s0: Host, steps: seq<Step>)
    requires HostOk(s0) && s0.hist == EMPTY && Legal(s0, steps)
    ensures var t := After(s0, steps);
            t.drain.Claimed? ==> Answered(s0, steps, t.hist.read, t.drain.rq, t.drain.tag + 1, t.drain.status)
  {
    RunAccounted(s0, steps);
    HeldRequest(s0, steps);
  }

  lemma HeldRequest(s0: Host, steps: seq<Step>)
    requires HostOk(s0) && Legal(s0, steps)
    ensures var t := After(s0, steps);
            t.drain.Claimed? ==>
              && t.hist.read < |t.hist.done| <= |t.hist.cmds| == |t.reqs|
              && t.hist.cmds[t.hist.read].cid == t.drain.tag + 1 && t.reqs[t.hist.read] == t.drain.rq
              && t.hist.done[t.hist.read].status == t.drain.status
  {
    RunKeeps(s0, steps);
  }

  // ----- across a reset

  ghost predicate NoneOf(s: Host, past: set<nat>) {
    past <= s.accepted && forall q :: q in s.reqs ==> q !in past
  }

  lemma {:induction false} NoneOfKept(s: Host, past: set<nat>, steps: seq<Step>)
    requires NoneOf(s, past) && Legal(s, steps)
    ensures NoneOf(After(s, steps), past)
    decreases |steps|
  {
    if steps != [] {
      NoneOfKept(Next(s, steps[0]), past, steps[1..]);
    }
  }

  lemma OwnRequest(t: Host)
    requires HostOk(t)
    ensures t.drain.Claimed? ==> t.drain.rq in t.reqs
  {
  }

  /** After `steps` from empty rings, a request the handler holds is none of `past`: it was submitted
      in `steps`, and the completion it was taken for was written after that. */
  ghost predicate OnlyNew(s0: Host, past: set<nat>, steps: seq<Step>)
    requires Legal(s0, steps)
  {
    var t := After(s0, steps);
    t.drain.Claimed? ==>
      t.drain.rq !in past && Answered(s0, steps, t.hist.read, t.drain.rq, t.drain.tag + 1, t.drain.status)
  }

  /** Whatever happens after a reset: no completion written before it ends a later request, and no
      later completion ends an earlier one. */
  lemma ResetSeparates(s: Host, steps: seq<Step>)
    requires HostOk(s) && Enabled(s, Reset) && Legal(Next(s, Reset), steps)
    ensures OnlyNew(Next(s, Reset), s.accepted, steps)
  {
    ResetStart(s);
    HeldIsNew(Next(s, Reset), s.accepted, steps);
  }

  lemma ResetStart(s: Host)
    requires HostOk(s) && Enabled(s, Reset)
    ensures var s0 := Next(s, Reset); HostOk(s0) && s0.hist == EMPTY && NoneOf(s0, s.accepted)
  {
    StepKeeps(s, Reset);
  }

  lemma HeldIsNew(s0: Host, past: set<nat>, steps: seq<Step>)
    requires HostOk(s0) && s0.hist == EMPTY && NoneOf(s0, past) && Legal(s0, steps)
    ensures OnlyNew(s0, past, steps)
  {
    RunKeeps(s0, steps);
    ClaimOrigin(s0, steps);
    NoneOfKept(s0, past, steps);
    OwnRequest(After(s0, steps));
  }

  // ----- a reset under a running handler

  /** What a handler that was interrupted by the reset still does. */
  function FinishHandler(s: Host): (u: Host)
    requires Shape(s)
    ensures u.drain.Idle? && u.rings == if s.drain.Idle? then s.rings else Advance(s.rings)
    decreases if s.drain.Claimed? then 1 + s.slots[s.drain.tag].mapped else 0
  {
    match s.drain
    case Idle => s
    case Settled => DoRelease(s)
    case Claimed(t, q, status) =>
      if s.slots[t].mapped > 0 then FinishHandler(UnmapLast(s, t))
      else DoRelease(EndRequest(s, t, q, BlkStatusOf(status)).(drain := Settled))
  }

  lemma ResetShape(s: Host)
    requires Shape(s)
    ensures Shape(DoReset(s))
  {
  }

  /** The rings after a reset and whatever the handler had left to do. */
  function RingsAfterReset(s: Host): (r: Rings)
    requires Shape(s)
    ensures r == if s.drain.Idle? then FreshRings(s.Depth()) else Advance(FreshRings(s.Depth()))
  {
    ResetShape(s);
    FinishHandler(DoReset(s)).rings
  }

  /** The sweep, which is all that the reset waits for, is over; the device has answered everything. */
  predicate SweptAndQuiet(s: Host) {
    s.sweep == At(|s.slots|) && |s.hist.done| == |s.hist.cmds|
  }

  lemma LateRings(depth: nat)
    requires depth >= 2
    ensures RingsOk(FreshRings(depth), EMPTY)
    ensures var r := Advance(FreshRings(depth));
            !RingsOk(r, EMPTY) && r.WellFormed() && r.cqHead == 1 && r.cqTail == 0 && !PhaseMatches(r)
  {
    FreshRingsOk(depth);
    assert 1 % depth == 1;
  }

  /** After a reset and whatever the handler had left to do, driver and device agree on empty rings
      exactly when the handler was idle; otherwise the driver looks one entry too far. */
  lemma ResetAgreesIffIdle(s: Host)
    requires Shape(s)
    ensures var r := RingsAfterReset(s);
            && (RingsOk(r, EMPTY) <==> s.drain.Idle?)
            && (!s.drain.Idle? ==> r.cqHead == 1 && r.cqTail == 0)
  {
    LateRings(s.Depth());
  }

  lemma FirstCompletion(depth: nat, late: bool, cmd: Command, status: int)
    requires depth >= 2
    ensures FreshRings(depth).WellFormed() && Advance(FreshRings(depth)).WellFormed()
    ensures var r := Process(Publish(if late then Advance(FreshRings(depth)) else FreshRings(depth), cmd), status);
            r.WellFormed() && (PhaseMatches(r) <==> !late)
  {
    LateRings(depth);
  }

  /** Then the first completion after the reset is missed: the device writes it to entry 0, and the
      driver, looking at entry 1, sees nothing. */
  lemma LateHandlerMisses(s: Host, cmd: Command, status: int)
    requires Shape(s)
    ensures var r := RingsAfterReset(s);
            && r.WellFormed() && Publish(r, cmd).WellFormed()
            && var r' := Process(Publish(r, cmd), status); r'.WellFormed() && (PhaseMatches(r') <==> s.drain.Idle?)
  {
    FirstCompletion(s.Depth(), !s.drain.Idle?, cmd, status);
  }

  // ----- the handler may still be running

  lemma {:induction false} SweepEmpty(s: Host) returns (steps: seq<Step>)
    requires HostOk(s) && s.sweep.At? && forall t :: s.sweep.next <= t < |s.slots| ==> s.slots[t].rq.None?
    ensures Legal(s, steps) && After(s, steps) == s.(sweep := At(|s.slots|))
    decreases if s.sweep.At? then |s.slots| - s.sweep.next else 0
  {
    if s.sweep.next == |s.slots| {
      steps := [];
    } else {
      StepKeeps(s, SweepTake);
      var s1 := Next(s, SweepTake);
      var rest := SweepEmpty(s1);
      One(s, SweepTake);
      Concat(s, [SweepTake], rest);
      steps := [SweepTake] + rest;
    }
  }

  /** One request submitted on tag 0 and answered, nothing read. */
  predicate OneAnswered(s: Host) {
    && s.drain.Idle? && s.hist.read == 0 && |s.hist.done| == |s.hist.cmds| == 1
    && |s.slots| > 0 && s.slots[0].rq.Some? && s.slots[0].mapped == 0 && s.hist.cmds[0].cid == 1
    && forall t :: 1 <= t < |s.slots| ==> s.slots[t].rq.None?
  }

  ghost predicate Begun(s: Host) {
    HostOk(s) && s.sweep == At(0) && OneAnswered(s)
  }

  lemma Begin(depth: nat) returns (steps: seq<Step>)
    requires depth >= 2
    ensures Legal(FreshHost(depth), steps) && Begun(After(FreshHost(depth), steps))
  {
    var s, submit := FreshHost(depth), Submit(0, 0, ZERO_BODY, []);
    FreshHostOk(depth);
    StepKeeps(s, submit);
    var s1 := Next(s, submit);
    StepKeeps(s1, Execute(0));
    One(s, submit);
    Extend(s, [submit], Execute(0));
    var s2 := Next(s1, Execute(0));
    BeginSweep(s2);
    Extend(s, [submit] + [Execute(0)], SweepStart);
    steps := [submit] + [Execute(0)] + [SweepStart];
  }

  lemma BeginSweep(s: Host)
    requires HostOk(s) && s.sweep.Off? && OneAnswered(s)
    ensures Enabled(s, SweepStart) && Begun(Next(s, SweepStart))
  {
    StepKeeps(s, SweepStart);
  }

  /** The handler takes the request before the sweep gets to it, and still holds it at its end. */
  lemma ClaimFirst(s: Host) returns (steps: seq<Step>)
    requires Begun(s)
    ensures Legal(s, steps) && SweptAndQuiet(After(s, steps)) && After(s, steps).drain.Claimed?
  {
    PhaseTestExact(s.rings, s.hist);
    ClaimTakesOwn(s);
    StepKeeps(s, Claim);
    var s1 := Next(s, Claim);
    var rest := SweepEmpty(s1);
    One(s, Claim);
    Concat(s, [Claim], rest);
    steps := [Claim] + rest;
  }

  /** The sweep ends the request; the handler then reads its completion as a stale one and has yet
      to move past it. */
  lemma SweepFirst(s: Host) returns (steps: seq<Step>)
    requires Begun(s)
    ensures Legal(s, steps) && SweptAndQuiet(After(s, steps)) && After(s, steps).drain.Settled?
  {
    StepKeeps(s, SweepTake);
    var s1 := Next(s, SweepTake);
    StepKeeps(s1, SweepFinish);
    var s2 := Next(s1, SweepFinish);
    var rest := SweepEmpty(s2);
    var s3 := s2.(sweep := At(|s2.slots|));
    One(s, SweepTake);
    Extend(s, [SweepTake], SweepFinish);
    Concat(s, [SweepTake] + [SweepFinish], rest);
    RunKeeps(s2, rest);
    PhaseTestExact(s3.rings, s3.hist);
    ClaimTakesOwn(s3);
    Extend(s, [SweepTake] + [SweepFinish] + rest, Claim);
    steps := [SweepTake] + [SweepFinish] + rest + [Claim];
  }

  /** For every depth a run exists in which the sweep is over and the device quiet, all that the
      source waits for before it clears the rings, while the handler still holds a request or has
      yet to move the head: the reset then leaves driver and device in disagreement. */
  lemma ResetCanDisagree(depth: nat, holding: bool) returns (steps: seq<Step>)
    requires depth >= 2
    ensures Legal(FreshHost(depth), steps)
    ensures var s := After(FreshHost(depth), steps);
            && HostOk(s) && SweptAndQuiet(s) && (if holding then s.drain.Claimed? else s.drain.Settled?)
            && !RingsOk(RingsAfterReset(s), EMPTY)
  {
    var a := Begin(depth);
    var s := After(FreshHost(depth), a);
    var b;
    if holding { b := ClaimFirst(s); } else { b := SweepFirst(s); }
    Concat(FreshHost(depth), a, b);
    steps := a + b;
    FreshHostOk(depth);
    RunKeeps(FreshHost(depth), steps);
    ResetAgreesIffIdle(After(FreshHost(depth), steps));
  }
}
