/** The simulator's own use of the FTL, which collects before a write once free pages run low: when
    that keeps the FTL's tables consistent. */
module Watermark {
  import opened Common
  import opened Geometry
  import opened FtlSpec
  import opened FtlInvariants
  import opened FtlConservation
  import opened FtlCollect
  import opened FtlRuns
  import opened Simulator

  type Request = Scheduler.IoRequest

  lemma InvalidateTotal(s: Ftl, l: int)
    ensures Total(Invalidate(s, l)) == Total(s) + if l in s.mapping then 1 else 0
  {
    if l in s.mapping {
      var b := Key(s.mapping[l]);
      SumAssign(s.invalid, b, InvalidAt(s, b) + 1);
    }
  }

  lemma MapSize(m: map<int, PhysicalPage>, l: int, p: PhysicalPage)
    ensures |m[l := p]| == |m| + if l in m then 0 else 1
  {
    assert m[l := p].Keys == m.Keys + {l};
    assert |m[l := p]| == |m[l := p].Keys| && |m| == |m.Keys|;
  }

  lemma PlaceTotal(s: Ftl, l: int)
    requires s.cfg.Valid() && Place(s, l, None).result.Ok?
    ensures Total(Place(s, l, None).state) == Total(s) - if l in s.mapping then 1 else 0
  {
    var o := Place(s, l, None);
    MapSize(s.mapping, l, o.result.value);
    assert FreePages(o.state) == FreePages(s) - 1;
  }

  /** From any state, a write that returns accounts for as many pages as before. */
  lemma WriteTotal(s: Ftl, l: int)
    requires s.cfg.Valid() && Write(s, l).result.Ok?
    ensures Total(Write(s, l).state) == Total(s)
  {
    InvalidateTotal(s, l);
    PlaceTotal(Invalidate(s, l), l);
  }

  /** Serving a request without failing keeps the FTL consistent exactly when it causes no collection
      or the victim is clear; a write cannot repair what a collection broke. */
  lemma ServeConsistentIff(v: Served, q: Request)
    requires Consistent(v.state) && v.failed.None? && Serve(v, q).failed.None?
    ensures Consistent(Serve(v, q).state) <==>
              q.op.Read? || !NeedsGc(v.state) || (Candidates(v.state) != {} && Clear(v.state, Victim(v.state)))
  {
    if q.op.Read? {
    } else if !NeedsGc(v.state) {
      WriteKeepsConsistent(v.state, q.lpn);
    } else {
      ServeCollects(v, q);
      CollectThenWrite(v.state, q.lpn);
    }
  }

  lemma CollectThenWrite(s: Ftl, l: int)
    requires Consistent(s) && Collect(s).result.Ok? && Collect(s).state.cfg == s.cfg && Write(Collect(s).state, l).result.Ok?
    ensures Candidates(s) != {}
    ensures Consistent(Write(Collect(s).state, l).state) <==> Clear(s, Victim(s))
  {
    CollectKeepsConsistentIffSealed(s);
    SealedIsClear(s, Victim(s));
    var t := Collect(s).state;
    WriteTotal(t, l);
    if Sealed(s, Victim(s)) {
      WriteKeepsConsistent(t, l);
    } else if Consistent(Write(t, l).state) {
      TotalIsCapacity(Write(t, l).state);
      StepKeepsConfig(t, WriteOp(l));
    }
  }

  lemma CollectedHasPage(s: Ftl, l: int)
    requires s.cfg.Valid() && Collect(s).result.Ok? && Collect(s).state.cfg == s.cfg
    ensures Write(Collect(s).state, l).result.Ok?
  {
    var v := Victim(s);
    CollectLiveIs(Touch(s, v), v, SortedSet(LiveAt(s, v)));
    WriteHasPage(Collect(s).state, l);
  }

  lemma WriteHasPage(s: Ftl, l: int)
    requires s.cfg.Valid() && s.reclaimed != []
    ensures Write(s, l).result.Ok?
  {
  }

  /** When serving a write fails, from a consistent FTL: at or below the watermark with anything ever
      overwritten, exactly when the collection raises; otherwise only with no page free at all. */
  lemma ServeFailsIff(v: Served, q: Request)
    requires Consistent(v.state) && v.failed.None? && !q.op.Read?
    ensures var s := v.state;
            Serve(v, q).failed.Some? <==>
              if s.invalid == map[] then FreePages(s) == 0
              else FreePages(s) <= s.cfg.gcLowWatermarkBlocks * s.cfg.pagesPerBlock && Collect(s).result.Err?
  {
    var s := v.state;
    FreeCount(s);
    assert s.cfg.gcLowWatermarkBlocks * s.cfg.pagesPerBlock >= 0;
    if NeedsGc(s) {
      ServeCollects(v, q);
      if Collect(s).result.Ok? { CollectedHasPage(s, q.lpn); }
    } else {
      WriteKeepsConsistent(s, q.lpn);
    }
  }

  // ----- a watermark of zero

  /** With no free page left every block is clear. */
  lemma NoneFreeClear(s: Ftl, v: BlockKey)
    requires AllocatorOk(s) && FreePages(s) <= 0
    ensures Clear(s, v)
  {
    FreeCount(s);
    assert Free(s) == {};
    SealedIsClear(s, v);
  }

  /** With a watermark of zero blocks the simulator collects only when no page is free, and every
      mapping run that does not fail keeps the FTL consistent. */
  lemma {:induction false} ZeroWatermarkKeeps(cfg: Config, requests: seq<Request>)
    requires cfg.Valid() && cfg.gcLowWatermarkBlocks == 0
    ensures var v := ServeAll(Fresh(cfg), requests); v.failed.None? ==> Consistent(v.state)
  {
    if requests == [] {
      FreshConsistent(cfg);
    } else {
      var n := |requests| - 1;
      ZeroWatermarkKeeps(cfg, requests[..n]);
      var v := ServeAll(Fresh(cfg), requests[..n]);
      if v.failed.None? && Serve(v, requests[n]).failed.None? {
        ZeroWatermarkStep(v, requests[n]);
      }
    }
  }

  lemma ZeroWatermarkStep(v: Served, q: Request)
    requires Consistent(v.state) && v.state.cfg.gcLowWatermarkBlocks == 0 && v.failed.None? && Serve(v, q).failed.None?
    ensures Consistent(Serve(v, q).state)
  {
    ServeConsistentIff(v, q);
    if !q.op.Read? && NeedsGc(v.state) {
      ServeCollects(v, q);
      CollectSucceeds(v.state);
      NoneFreeClear(v.state, Victim(v.state));
    }
  }

  // ----- a positive watermark

  const EAGER := Config(1, 1, 1, 4, 1)

  function WriteOf(id: nat): Request {
    Scheduler.IoRequest(id, Scheduler.Write, 5, 1, 0.0)
  }

  function EagerState(n: int): Ftl {
    Rewritten(n).(cfg := EAGER)
  }

  lemma EagerNumbers()
    ensures EAGER.Valid() && EAGER.Dies() == 1 && EAGER.Capacity() == 4
    ensures forall n :: 0 <= n < 4 ==> PhysicalFromLinear(EAGER, n) == PhysicalPage(0, 0, 0, n)
  {
  }

  lemma EagerWrites()
    ensures Write(Fresh(EAGER), 5) == Outcome(EagerState(1), Ok(PhysicalPage(0, 0, 0, 0)))
    ensures Write(EagerState(1), 5) == Outcome(EagerState(2), Ok(PhysicalPage(0, 0, 0, 1)))
  {
    EagerNumbers();
    var o := Write(Fresh(EAGER), 5);
    assert LiveAt(o.state, BlockKey(0, 0, 0)) == {5};
    assert o.state.mapping == EagerState(1).mapping && o.state.valid == EagerState(1).valid;
    assert {5} - {5} + {5} == {5};
  }

  lemma EagerConsistent()
    ensures Consistent(EagerState(2))
  {
    EagerNumbers();
    EagerWrites();
    FreshConsistent(EAGER);
    WriteKeepsConsistent(Fresh(EAGER), 5);
    WriteKeepsConsistent(EagerState(1), 5);
  }

  lemma EagerServed()
    ensures EAGER.Valid()
    ensures var v := ServeAll(Fresh(EAGER), [WriteOf(0), WriteOf(1)]); v.state == EagerState(2) && v.failed.None?
  {
    EagerNumbers();
    EagerWrites();
    assert [WriteOf(0), WriteOf(1)][..1] == [WriteOf(0)] && [WriteOf(0)][..0] == [];
    assert ServeAll(Fresh(EAGER), [WriteOf(0)]).state == EagerState(1);
  }

  lemma EagerVictim()
    ensures EAGER.Valid() && NeedsGc(EagerState(2)) && Candidates(EagerState(2)) != {}
    ensures Victim(EagerState(2)) == BlockKey(0, 0, 0) && !Clear(EagerState(2), BlockKey(0, 0, 0))
  {
    EagerNumbers();
    var s, b := EagerState(2), BlockKey(0, 0, 0);
    assert b in Candidates(s);
    assert Key(PhysicalFromLinear(EAGER, 2)) == b;
  }

  lemma EagerReturns()
    ensures EAGER.Valid() && Collect(EagerState(2)).result.Ok? && Collect(EagerState(2)).state.cfg == EAGER
    ensures Write(Collect(EagerState(2)).state, 5).result.Ok?
  {
    var s, v := EagerState(2), BlockKey(0, 0, 0);
    EagerConsistent();
    EagerVictim();
    CollectSucceeds(s);
    StepKeepsConfig(s, GcOp);
    assert LiveAt(s, v) == {5};
    CollectLiveIs(Touch(s, v), v, SortedSet(LiveAt(s, v)));
    WriteHasPage(Collect(s).state, 5);
  }

  lemma EagerThird(v: Served, q: Request)
    requires v.state == EagerState(2) && v.failed.None? && q == WriteOf(2)
    ensures EAGER.Valid() && Serve(v, q).failed.None? && !Consistent(Serve(v, q).state)
  {
    EagerConsistent();
    EagerVictim();
    EagerReturns();
    ServeCollects(v, q);
    ServeConsistentIff(v, q);
  }

  /** With a watermark of one block, three writes of one page on a one-block device end without an
      error and inconsistent. */
  lemma EagerBreaks()
    ensures EAGER.Valid()
    ensures var v := ServeAll(Fresh(EAGER), [WriteOf(0), WriteOf(1), WriteOf(2)]); v.failed.None? && !Consistent(v.state)
  {
    EagerServed();
    var requests := [WriteOf(0), WriteOf(1), WriteOf(2)];
    assert requests[..2] == [WriteOf(0), WriteOf(1)] && requests[..3] == requests;
    ServeAllNext(Fresh(EAGER), requests, 2);
    EagerThird(ServeAll(Fresh(EAGER), requests[..2]), requests[2]);
  }
}
