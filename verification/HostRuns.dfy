/** Whole runs of the host/device queue protocol. */
module HostRuns {
  import opened Ring
  import opened HostProtocol

  /** Every step of `steps` is enabled when its turn comes. */
  predicate Legal(s: Host, steps: seq<Step>)
    decreases |steps|
  {
    steps == [] || (Shape(s) && Enabled(s, steps[0]) && Legal(Next(s, steps[0]), steps[1..]))
  }

  function After(s: Host, steps: seq<Step>): Host
    requires Legal(s, steps)
    decreases |steps|
  {
    if steps == [] then s else After(Next(s, steps[0]), steps[1..])
  }

  lemma {:induction false} RunKeeps(s: Host, steps: seq<Step>)
    requires HostOk(s) && Legal(s, steps)
    ensures HostOk(After(s, steps))
    decreases |steps|
  {
    if steps != [] {
      StepKeeps(s, steps[0]);
      RunKeeps(Next(s, steps[0]), steps[1..]);
    }
  }

  lemma {:induction false} Extend(s: Host, steps: seq<Step>, step: Step)
    requires Legal(s, steps) && Shape(After(s, steps)) && Enabled(After(s, steps), step)
    ensures Legal(s, steps + [step]) && After(s, steps + [step]) == Next(After(s, steps), step)
    decreases |steps|
  {
    if steps == [] {
      assert (steps + [step])[1..] == [];
    } else {
      assert (steps + [step])[1..] == steps[1..] + [step];
      Extend(Next(s, steps[0]), steps[1..], step);
    }
  }

  /** Some run from a fresh queue leads to `s`. */
  ghost predicate Reached(s: Host) {
    exists depth: nat, steps: seq<Step> :: RunsTo(depth, steps, s)
  }

  ghost predicate RunsTo(depth: nat, steps: seq<Step>, s: Host) {
    depth >= 2 && Legal(FreshHost(depth), steps) && After(FreshHost(depth), steps) == s
  }

  lemma ReachedOk(s: Host)
    requires Reached(s)
    ensures HostOk(s)
  {
    var depth: nat, steps: seq<Step> :| RunsTo(depth, steps, s);
    FreshHostOk(depth);
    RunKeeps(FreshHost(depth), steps);
  }

  lemma ReachedShape(s: Host)
    requires Reached(s)
    ensures Shape(s) && s.hist.read <= |s.hist.done| <= |s.hist.cmds| == |s.reqs|
  {
    ReachedOk(s);
  }

  lemma ReachedFresh(depth: nat)
    requires depth >= 2
    ensures Reached(FreshHost(depth))
  {
    assert RunsTo(depth, [], FreshHost(depth));
  }

  lemma ReachedNext(s: Host, step: Step)
    requires Reached(s) && Shape(s) && Enabled(s, step)
    ensures Reached(Next(s, step))
  {
    var depth: nat, steps: seq<Step> :| RunsTo(depth, steps, s);
    Extend(FreshHost(depth), steps, step);
    assert RunsTo(depth, steps + [step], Next(s, step));
  }

  // ----- what every run guarantees

  /** In every interleaving of submissions, device steps, drain steps, sweeps and resets: the rings
      stay within bounds, and the phase test is exact. */
  lemma RunRings(depth: nat, steps: seq<Step>)
    requires depth >= 2 && Legal(FreshHost(depth), steps)
    ensures var s := After(FreshHost(depth), steps);
            && s.rings.WellFormed() && s.Depth() == depth
            && 0 <= |s.hist.done| - s.hist.read <= depth
            && 0 <= |s.hist.cmds| - |s.hist.done| <= depth - 1
            && (s.rings.sqHead == s.rings.sqTail <==> |s.hist.done| == |s.hist.cmds|)
            && (PhaseMatches(s.rings) <==> s.hist.read < |s.hist.done|)
  {
    var s := After(FreshHost(depth), steps);
    FreshHostOk(depth);
    RunKeeps(FreshHost(depth), steps);
    DepthFixed(FreshHost(depth), steps);
    RingBounds(s);
    PhaseTestExact(s.rings, s.hist);
  }

  lemma {:induction false} DepthFixed(s: Host, steps: seq<Step>)
    requires Legal(s, steps)
    ensures After(s, steps).Depth() == s.Depth()
    decreases |steps|
  {
    if steps != [] {
      DepthFixed(Next(s, steps[0]), steps[1..]);
    }
  }

  /** No request ends twice or without having been accepted, and no DMA mapping is leaked, undone
      twice or undone for a request still owned; once no tag is in use every accepted request has
      ended exactly once and every mapping ever made has been undone exactly once. */
  lemma RunEndsOnce(depth: nat, steps: seq<Step>)
    requires depth >= 2 && Legal(FreshHost(depth), steps)
    ensures var s := After(FreshHost(depth), steps);
            && (forall q :: s.ended[q] <= 1 && (q in s.ended ==> q in s.accepted))
            && s.live == Tally(s.slots, Mapped) && s.mappedEver == s.live + s.unmapped
            && (s.busy == {} ==> s.ended == multiset(s.accepted) && s.live == multiset{} && s.unmapped == s.mappedEver)
  {
    var s := After(FreshHost(depth), steps);
    FreshHostOk(depth);
    RunKeeps(FreshHost(depth), steps);
    forall q
      ensures s.ended[q] <= 1 && (q in s.ended ==> q in s.accepted)
    {
      assert s.ended[q] <= multiset(s.accepted)[q];
    }
    if s.busy == {} {
      QuietTallies(s);
    }
  }

  lemma QuietTallies(s: Host)
    requires HostOk(s) && s.busy == {}
    ensures Tally(s.slots, Mapped) == multiset{} && Tally(s.slots, Held) == multiset{} && InHand(s) == multiset{}
  {
    forall t | 0 <= t < |s.slots|
      ensures Mapped(s.slots[t]) == multiset{} && Held(s.slots[t]) == multiset{}
    {
      assert !InUse(s, t);
      assert s.slots[t].sgl[..0] == [];
    }
    TallyEmpty(s.slots, Mapped);
    TallyEmpty(s.slots, Held);
    HandsInUse(s);
  }

  /** Whoever holds a request keeps its tag in use. */
  lemma HandsInUse(s: Host)
    requires Shape(s)
    ensures s.drain.Claimed? || s.sweep.Took? ==> exists t :: 0 <= t < |s.slots| && InUse(s, t)
  {
    if s.drain.Claimed? {
      assert InUse(s, s.drain.tag);
    } else if s.sweep.Took? {
      assert InUse(s, s.sweep.tag);
    }
  }

  // ----- the completion bound is reached

  /** `k` requests submitted and executed, nothing read. */
  ghost predicate Filled(s: Host, k: nat) {
    && HostOk(s) && s.drain.Idle? && s.sweep.Off? && s.hist.read == 0 && |s.hist.done| == |s.hist.cmds| == k
    && (forall t :: t in s.busy ==> t < k) && (forall q :: q in s.accepted ==> q < k)
    && forall t :: 0 <= t < |s.slots| ==> s.slots[t].mapped == 0
  }

  /** The same with one more request submitted. */
  ghost predicate Filling(s: Host, k: nat) {
    && HostOk(s) && s.drain.Idle? && s.sweep.Off? && s.hist.read == 0 && |s.hist.done| == k && |s.hist.cmds| == k + 1
    && (forall t :: t in s.busy ==> t < k + 1) && (forall q :: q in s.accepted ==> q < k + 1)
    && forall t :: 0 <= t < |s.slots| ==> s.slots[t].mapped == 0
  }

  lemma FillSubmit(s: Host, k: nat)
    requires Filled(s, k) && k < s.Depth() - 1
    ensures Enabled(s, Submit(k, k, ZERO_BODY, [])) && Filling(Next(s, Submit(k, k, ZERO_BODY, [])), k)
  {
    StepKeeps(s, Submit(k, k, ZERO_BODY, []));
  }

  lemma FillExecute(s: Host, k: nat)
    requires Filling(s, k)
    ensures Enabled(s, Execute(0)) && Filled(Next(s, Execute(0)), k + 1)
  {
    StepKeeps(s, Execute(0));
  }

  lemma FillOne(s: Host, k: nat)
    requires Filled(s, k) && k < s.Depth() - 1
    ensures Enabled(s, Submit(k, k, ZERO_BODY, []))
    ensures var s1 := Next(s, Submit(k, k, ZERO_BODY, []));
            Shape(s1) && Enabled(s1, Execute(0)) && Filled(Next(s1, Execute(0)), k + 1)
  {
    FillSubmit(s, k);
    FillExecute(Next(s, Submit(k, k, ZERO_BODY, [])), k);
  }

  lemma FillTwo(depth: nat, steps: seq<Step>, k: nat) returns (more: seq<Step>)
    requires depth >= 2 && k < depth - 1 && Legal(FreshHost(depth), steps) && Filled(After(FreshHost(depth), steps), k)
    ensures Legal(FreshHost(depth), more) && Filled(After(FreshHost(depth), more), k + 1)
  {
    var f, submit := FreshHost(depth), Submit(k, k, ZERO_BODY, []);
    DepthFixed(f, steps);
    FillOne(After(f, steps), k);
    Extend(f, steps, submit);
    Extend(f, steps + [submit], Execute(0));
    more := steps + [submit] + [Execute(0)];
  }

  lemma {:induction false} Fill(depth: nat, k: nat) returns (steps: seq<Step>)
    requires depth >= 2 && k <= depth - 1
    ensures Legal(FreshHost(depth), steps) && Filled(After(FreshHost(depth), steps), k)
  {
    if k == 0 {
      steps := [];
      FreshHostOk(depth);
    } else {
      steps := Fill(depth, k - 1);
      steps := FillTwo(depth, steps, k - 1);
    }
  }

  /** A single step as a run. */
  lemma One(s: Host, step: Step)
    requires Shape(s) && Enabled(s, step)
    ensures Legal(s, [step]) && After(s, [step]) == Next(s, step)
  {
    assert [step][1..] == [];
  }

  /** The handler ends the oldest request: its tag is free although the head has not moved. */
  lemma FreeOldest(s: Host, k: nat)
    requires Filled(s, k) && k > 0
    ensures Enabled(s, Claim) && HostOk(Next(s, Claim))
    ensures var s1 := Next(s, Claim);
            && Enabled(s1, Finish) && HostOk(Next(s1, Finish))
            && s1.drain.tag !in Next(s1, Finish).busy && s1.drain.tag < |s.slots|
            && Next(s1, Finish).hist == s.hist && Next(s1, Finish).accepted == s.accepted && Next(s1, Finish).sweep.Off?
  {
    PhaseTestExact(s.rings, s.hist);
    ClaimTakesOwn(s);
    StepKeeps(s, Claim);
    StepKeeps(Next(s, Claim), Finish);
  }

  lemma RefillTag(s: Host, t: nat, k: nat)
    requires HostOk(s) && s.sweep.Off? && t < |s.slots| && t !in s.busy && (forall q :: q in s.accepted ==> q < k)
    requires |s.hist.done| == |s.hist.cmds| == k
    ensures Enabled(s, Submit(t, k, ZERO_BODY, [])) && HostOk(Next(s, Submit(t, k, ZERO_BODY, [])))
    ensures var s1 := Next(s, Submit(t, k, ZERO_BODY, []));
            Enabled(s1, Execute(0)) && |Next(s1, Execute(0)).hist.done| == k + 1 && Next(s1, Execute(0)).hist.read == s.hist.read
  {
    StepKeeps(s, Submit(t, k, ZERO_BODY, []));
  }

  lemma Overfill(s: Host, k: nat) returns (steps: seq<Step>)
    requires Filled(s, k) && k == s.Depth() - 1
    ensures Legal(s, steps) && |After(s, steps).hist.done| - After(s, steps).hist.read == s.Depth()
  {
    FreeOldest(s, k);
    var s1 := Next(s, Claim);
    var s2 := Next(s1, Finish);
    var submit := Submit(s1.drain.tag, k, ZERO_BODY, []);
    RefillTag(s2, s1.drain.tag, k);
    One(s, Claim);
    Extend(s, [Claim], Finish);
    Extend(s, [Claim] + [Finish], submit);
    Extend(s, [Claim] + [Finish] + [submit], Execute(0));
    steps := [Claim] + [Finish] + [submit] + [Execute(0)];
  }

  lemma {:induction false} Concat(s: Host, a: seq<Step>, b: seq<Step>)
    requires Legal(s, a) && Legal(After(s, a), b)
    ensures Legal(s, a + b) && After(s, a + b) == After(After(s, a), b)
    decreases |a|
  {
    if a == [] {
      assert a + b == b;
    } else {
      assert (a + b)[1..] == a[1..] + b;
      Concat(Next(s, a[0]), a[1..], b);
    }
  }

  /** For every depth some run fills the completion ring with `depth` unread entries, although
      only depth - 1 tags exist: a tag is free again before the head has moved. */
  lemma BoundReached(depth: nat) returns (steps: seq<Step>)
    requires depth >= 2
    ensures Legal(FreshHost(depth), steps)
    ensures var s := After(FreshHost(depth), steps); |s.hist.done| - s.hist.read == depth
  {
    var a := Fill(depth, depth - 1);
    DepthFixed(FreshHost(depth), a);
    var b := Overfill(After(FreshHost(depth), a), depth - 1);
    Concat(FreshHost(depth), a, b);
    steps := a + b;
  }
}
