/** The reset of the I/O rings in the source's two parts: memory is cleared first, the driver's
    indices and phase are set later, and the interrupt handler may run in between. A driver that
    expects phase 0 then takes zeroed entries for completions. */
module ResetWindow {
  import opened Ring
  import opened HostProtocol
  import opened HostRuns
  import opened HostReset

  function ClearMemory(s: Host): Host
    requires Shape(s)
  {
    var r := FreshRings(s.Depth());
    s.(rings := s.rings.(sq := r.sq, cq := r.cq))
  }

  /** Indices and phase of the driver, then the device's, at their start; the record starts over. */
  function SetIndices(s: Host): Host {
    s.(rings := s.rings.(sqTail := 0, cqHead := 0, cqPhase := 1, sqHead := 0, cqTail := 0, devPhase := 1),
       hist := EMPTY, reqs := [], sweep := Off)
  }

  predicate IsHandler(step: Step) {
    step.Claim? || step.Unmap? || step.Finish? || step.Release?
  }

  /** The handler, and nobody else, takes `steps`. */
  predicate HandlerRun(s: Host, steps: seq<Step>) {
    Legal(s, steps) && forall i :: 0 <= i < |steps| ==> IsHandler(steps[i])
  }

  /** With no handler in between, the two parts make the reset step of the protocol. */
  lemma NoHandlerIsReset(s: Host)
    requires Shape(s)
    ensures SetIndices(ClearMemory(s)) == DoReset(s)
  {
  }

  lemma HandlerStepKeeps(s: Host, step: Step)
    requires Shape(s) && IsHandler(step) && Enabled(s, step)
    ensures var u := Next(s, step);
            Shape(u) && u.Depth() == s.Depth() && u.rings.sq == s.rings.sq && u.rings.cq == s.rings.cq
  {
  }

  /** The handler writes no ring memory. */
  lemma {:induction false} HandlerKeepsMemory(s: Host, steps: seq<Step>)
    requires Shape(s) && HandlerRun(s, steps)
    ensures var u := After(s, steps);
            Shape(u) && u.Depth() == s.Depth() && u.rings.sq == s.rings.sq && u.rings.cq == s.rings.cq
    decreases |steps|
  {
    if steps != [] {
      assert IsHandler(steps[0]);
      HandlerStepKeeps(s, steps[0]);
      assert forall i :: 0 <= i < |steps[1..]| ==> steps[1..][i] == steps[i + 1];
      HandlerKeepsMemory(Next(s, steps[0]), steps[1..]);
    }
  }

  /** The rings once the clearing, `steps` of the handler, the index writes and the rest of the
      handler's turn have happened. */
  function RingsAfterWindow(s: Host, steps: seq<Step>): (r: Rings)
    requires Shape(s) && HandlerRun(ClearMemory(s), steps)
    ensures r == if After(ClearMemory(s), steps).drain.Idle? then FreshRings(s.Depth()) else Advance(FreshRings(s.Depth()))
  {
    HandlerKeepsMemory(ClearMemory(s), steps);
    FinishHandler(SetIndices(After(ClearMemory(s), steps))).rings
  }

  /** What matters is the handler at the moment of the index writes: the rings end up in agreement
      exactly when it is idle then. */
  lemma WindowAgreesIffIdle(s: Host, steps: seq<Step>)
    requires Shape(s) && HandlerRun(ClearMemory(s), steps)
    ensures RingsOk(RingsAfterWindow(s, steps), EMPTY) <==> After(ClearMemory(s), steps).drain.Idle?
  {
    LateRings(s.Depth());
  }

  /** Whatever the handler does in between, the rings end up in agreement. */
  ghost predicate ClearingIsSafe(s: Host)
    requires Shape(s)
  {
    forall steps: seq<Step> :: HandlerRun(ClearMemory(s), steps) ==> RingsOk(RingsAfterWindow(s, steps), EMPTY)
  }

  /** In cleared memory an idle handler has something to take exactly when it expects phase 0. */
  lemma ClearedEntry(s: Host)
    requires Shape(s)
    ensures Shape(ClearMemory(s)) && (PhaseMatches(ClearMemory(s).rings) <==> s.rings.cqPhase == 0)
    ensures s.rings.cqPhase == 0 ==> DoClaim(ClearMemory(s)).drain.Settled?
  {
  }

  lemma HandlerStays(s: Host, steps: seq<Step>)
    requires Shape(s) && s.drain.Idle? && s.rings.cqPhase != 0 && HandlerRun(ClearMemory(s), steps)
    ensures steps == []
  {
    ClearedEntry(s);
    assert steps != [] ==> IsHandler(steps[0]);
  }

  /** The exact condition when the clearing begins: the handler is idle and the driver expects phase 1. */
  lemma ClearingSafeIff(s: Host)
    requires Shape(s)
    ensures ClearingIsSafe(s) <==> s.drain.Idle? && s.rings.cqPhase != 0
  {
    var c := ClearMemory(s);
    ClearedEntry(s);
    if s.drain.Idle? && s.rings.cqPhase != 0 {
      forall steps: seq<Step> | HandlerRun(c, steps)
        ensures RingsOk(RingsAfterWindow(s, steps), EMPTY)
      {
        HandlerStays(s, steps);
        WindowAgreesIffIdle(s, steps);
      }
    } else {
      var steps := if s.drain.Idle? then [Claim] else [];
      if s.drain.Idle? { One(c, Claim); }
      assert HandlerRun(c, steps);
      WindowAgreesIffIdle(s, steps);
    }
  }

  // ----- the driver does come to expect phase 0

  /** `k` requests submitted, answered and ended, one after the other. */
  ghost predicate Cycled(s: Host, k: nat) {
    && HostOk(s) && s.drain.Idle? && s.sweep.Off? && s.busy == {}
    && s.hist.read == |s.hist.done| == |s.hist.cmds| == k && forall q :: q in s.accepted ==> q < k
  }

  lemma CycleSubmit(s: Host, k: nat)
    requires Cycled(s, k)
    ensures Enabled(s, Submit(0, k, ZERO_BODY, []))
    ensures var u := Next(s, Submit(0, k, ZERO_BODY, []));
            && HostOk(u) && Enabled(u, Execute(0)) && u.drain.Idle? && u.sweep.Off? && u.busy == {0} && u.slots[0].mapped == 0
            && u.hist.read == |u.hist.done| == k && |u.hist.cmds| == k + 1 && forall q :: q in u.accepted ==> q < k + 1
  {
    StepKeeps(s, Submit(0, k, ZERO_BODY, []));
    assert s.busy + {0} == {0};
  }

  lemma CycleAnswer(s: Host, k: nat)
    requires HostOk(s) && Enabled(s, Execute(0)) && s.drain.Idle? && s.sweep.Off? && s.slots[0].mapped == 0
    requires s.busy == {0} && s.hist.read == |s.hist.done| == k && |s.hist.cmds| == k + 1
    ensures var u := Next(s, Execute(0));
            && HostOk(u) && Enabled(u, Claim)
            && u == s.(rings := u.rings, hist := s.hist.(done := u.hist.done)) && |u.hist.done| == k + 1
  {
    StepKeeps(s, Execute(0));
    var u := Next(s, Execute(0));
    PhaseTestExact(u.rings, u.hist);
  }

  lemma CycleEnd(s: Host, k: nat)
    requires HostOk(s) && Enabled(s, Claim) && s.drain.Idle? && s.sweep.Off? && s.slots[0].mapped == 0
    requires s.busy == {0} && s.hist.read == k && |s.hist.done| == |s.hist.cmds| == k + 1
    ensures var a := Next(s, Claim);
            && HostOk(a) && Enabled(a, Finish)
            && var b := Next(a, Finish);
            && HostOk(b) && Enabled(b, Release) && b.busy == {} && b.hist == s.hist && b.accepted == s.accepted && b.sweep.Off?
  {
    ClaimTakesOwn(s);
    var t := s.hist.cmds[k].cid - 1;
    assert InUse(s, t) && t in s.busy;
    StepKeeps(s, Claim);
    StepKeeps(Next(s, Claim), Finish);
  }

  lemma OneCycle(depth: nat, steps: seq<Step>, k: nat) returns (more: seq<Step>)
    requires depth >= 2 && Legal(FreshHost(depth), steps) && Cycled(After(FreshHost(depth), steps), k)
    ensures Legal(FreshHost(depth), more) && Cycled(After(FreshHost(depth), more), k + 1)
  {
    var f, submit := FreshHost(depth), Submit(0, k, ZERO_BODY, []);
    var s := After(f, steps);
    CycleSubmit(s, k);
    var s1 := Next(s, submit);
    CycleAnswer(s1, k);
    var s2 := Next(s1, Execute(0));
    CycleEnd(s2, k);
    var s3 := Next(s2, Claim);
    var s4 := Next(s3, Finish);
    StepKeeps(s4, Release);
    Extend(f, steps, submit);
    Extend(f, steps + [submit], Execute(0));
    Extend(f, steps + [submit] + [Execute(0)], Claim);
    Extend(f, steps + [submit] + [Execute(0)] + [Claim], Finish);
    Extend(f, steps + [submit] + [Execute(0)] + [Claim] + [Finish], Release);
    more := steps + [submit] + [Execute(0)] + [Claim] + [Finish] + [Release];
  }

  lemma {:induction false} Cycles(depth: nat, k: nat) returns (steps: seq<Step>)
    requires depth >= 2
    ensures Legal(FreshHost(depth), steps) && Cycled(After(FreshHost(depth), steps), k)
  {
    if k == 0 {
      steps := [];
      FreshHostOk(depth);
    } else {
      steps := Cycles(depth, k - 1);
      steps := OneCycle(depth, steps, k - 1);
    }
  }

  /** The sweep over a queue without requests. */
  lemma SweepIdle(s: Host, k: nat) returns (steps: seq<Step>)
    requires Cycled(s, k)
    ensures Legal(s, steps) && After(s, steps) == s.(sweep := At(|s.slots|))
  {
    forall t | 0 <= t < |s.slots| ensures s.slots[t].rq.None? { assert !InUse(s, t); }
    StepKeeps(s, SweepStart);
    var rest := SweepEmpty(Next(s, SweepStart));
    One(s, SweepStart);
    Concat(s, [SweepStart], rest);
    steps := [SweepStart] + rest;
  }

  /** For every depth a run exists after which nothing at all is in flight and the handler is idle,
      and yet the reset can go wrong: the driver expects phase 0, so a handler that starts between
      the clearing and the index writes takes a zeroed entry for a completion. */
  lemma ClearingCanFail(depth: nat) returns (steps: seq<Step>)
    requires depth >= 2
    ensures Legal(FreshHost(depth), steps)
    ensures var s := After(FreshHost(depth), steps);
            HostOk(s) && Enabled(s, Reset) && SweptAndQuiet(s) && s.busy == {} && !ClearingIsSafe(s)
  {
    var a := Cycles(depth, depth);
    DepthFixed(FreshHost(depth), a);
    var s := After(FreshHost(depth), a);
    var b := SweepIdle(s, depth);
    Concat(FreshHost(depth), a, b);
    steps := a + b;
    FreshHostOk(depth);
    RunKeeps(FreshHost(depth), steps);
    PhaseAfterWrap(depth);
    ClearingSafeIff(After(FreshHost(depth), steps));
  }

  lemma PhaseAfterWrap(depth: nat)
    requires depth >= 2
    ensures Phase(depth, depth) == 0
  {
    assert depth / depth == 1;
  }
}
