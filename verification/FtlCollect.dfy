/** Garbage collection from a consistent state, and whole runs of the FTL. */
module FtlCollect {
  import opened Common
  import opened Geometry
  import opened FtlSpec
  import opened FtlInvariants
  import opened FtlConservation

  lemma CandidateInGeometry(s: Ftl, b: BlockKey)
    requires Consistent(s) && InvalidAt(s, b) > 0
    ensures BlockInGeometry(s.cfg, b)
  {
    assert BlockOk(s, b);
    assert Dead(s, b) != {};
    var p := Member(Dead(s, b));
    assert p in PagesOf(s.cfg, b);
  }

  lemma TouchBlock(s: Ftl, v: BlockKey, b: BlockKey)
    requires Core(s) && BlockOk(s, b)
    ensures Core(Touch(s, v)) && BlockOk(Touch(s, v), b)
  {
    SameDead(s, Touch(s, v), b);
  }

  /** Default entries carry no information. */
  lemma TouchKeepsConsistent(s: Ftl, v: BlockKey)
    requires Consistent(s)
    ensures Consistent(Touch(s, v))
  {
    forall b
      ensures Core(Touch(s, v)) && BlockOk(Touch(s, v), b)
    {
      assert BlockOk(s, b);
      TouchBlock(s, v, b);
    }
  }

  lemma StartRelocating(s: Ftl, v: BlockKey)
    requires Consistent(s) && Sealed(s, v)
    ensures Relocating(Touch(s, v), v, SortedSet(LiveAt(s, v)))
  {
    TouchKeepsConsistent(s, v);
    var t, q := Touch(s, v), SortedSet(LiveAt(s, v));
    assert BlockOk(s, v);
    assert Elements(q) == LiveAt(s, v);
    assert Free(t) == Free(s);
    forall b ensures BlockOk(t, b) { assert BlockOk(t, b); }
  }

  lemma SealedCollectConsistent(s: Ftl, v: BlockKey)
    requires Consistent(s) && InvalidAt(s, v) > 0 && Sealed(s, v) && CollectVictim(s, v).result.Ok?
    ensures Consistent(CollectVictim(s, v).state)
  {
    var live := SortedSet(LiveAt(s, v));
    StartRelocating(s, v);
    RelocateAll(Touch(s, v), v, live);
    CandidateInGeometry(s, v);
    ReclaimConsistent(Relocate(Touch(s, v), v, live).state, v);
  }

  lemma {:induction false} RelocateKeys(s: Ftl, v: BlockKey, lpns: seq<int>)
    requires s.cfg.Valid() && forall l :: l in lpns ==> l in s.mapping
    ensures Relocate(s, v, lpns).state.mapping.Keys == s.mapping.Keys
    decreases |lpns|
  {
    if lpns != [] {
      var o := Place(s, lpns[0], Some(v));
      assert lpns[0] in s.mapping;
      if o.result.Ok? {
        RelocateKeys(o.state, v, lpns[1..]);
      }
    }
  }

  lemma SumAssign(m: map<BlockKey, int>, k: BlockKey, x: int)
    ensures Sum(m[k := x]) == Sum(m) + x - if k in m then m[k] else 0
  {
    SumSplits(m[k := x], k);
    assert m[k := x] - {k} == m - {k};
    if k in m {
      SumSplits(m, k);
    } else {
      assert m - {k} == m;
    }
  }

  lemma LiveAreMapped(s: Ftl, v: BlockKey)
    requires Consistent(s)
    ensures forall l :: l in SortedSet(LiveAt(s, v)) ==> l in s.mapping
  {
    assert BlockOk(s, v);
  }

  /** A collection that returns has relocated everything and then recycled the victim. */
  lemma CollectLiveIs(s: Ftl, v: BlockKey, live: seq<int>)
    requires s.cfg.Valid() && CollectLive(s, v, live).result.Ok?
    ensures var moved, o := Relocate(s, v, live), CollectLive(s, v, live);
            && moved.result.Ok? && moved.state.cfg == s.cfg && o.state == Reclaim(moved.state, v)
            && o.result.value == GcResult(v, |live|, s.cfg.pagesPerBlock, EraseAt(moved.state, v) + 1)
  {
  }

  lemma ReclaimCounts(s: Ftl, v: BlockKey)
    requires s.cfg.Valid()
    ensures var t := Reclaim(s, v);
            && FreePages(t) == FreePages(s) + s.cfg.pagesPerBlock && t.mapping == s.mapping
            && t.invalid == s.invalid[v := 0] && EraseAt(t, v) == EraseAt(s, v) + 1
  {
  }

  lemma CollectCounts(s: Ftl, v: BlockKey)
    requires Consistent(s) && InvalidAt(s, v) > 0 && CollectVictim(s, v).result.Ok?
    ensures var s' := CollectVictim(s, v).state;
            && |s'.mapping| == |s.mapping| && s'.invalid == s.invalid[v := 0]
            && FreePages(s') == FreePages(s) - |LiveAt(s, v)| + s.cfg.pagesPerBlock
  {
    var live, t := SortedSet(LiveAt(s, v)), Touch(s, v);
    var moved := Relocate(t, v, live);
    CollectLiveIs(t, v, live);
    ReclaimCounts(moved.state, v);
    LiveAreMapped(s, v);
    RelocateKeys(t, v, live);
    assert FreePages(t) == FreePages(s);
    assert |moved.state.mapping| == |moved.state.mapping.Keys| == |s.mapping.Keys| == |s.mapping|;
    RelocateSucceeds(t, v, live);
  }

  /** A collection that returns gives back the whole victim, so it inflates the page count by the
      victim pages that were still free. */
  lemma CollectTotal(s: Ftl, v: BlockKey)
    requires Consistent(s) && InvalidAt(s, v) > 0 && CollectVictim(s, v).result.Ok?
    ensures Total(CollectVictim(s, v).state) == s.cfg.Capacity() + |FreeIn(s, v)|
  {
    CollectCounts(s, v);
    SumAssign(s.invalid, v, 0);
    CandidateInGeometry(s, v);
    BlockCensus(s, v);
    TotalIsCapacity(s);
  }

  lemma SealedNoneFree(s: Ftl, v: BlockKey)
    requires AllocatorOk(s)
    ensures Sealed(s, v) <==> |FreeIn(s, v)| == 0
  {
    if Sealed(s, v) {
      assert FreeIn(s, v) == {};
    } else {
      var p :| p in Free(s) && p in BlockPages(s.cfg, v);
      assert p in FreeIn(s, v);
    }
  }

  /** A collection keeps the FTL consistent, and conserves pages, exactly when its victim is sealed. */
  lemma CollectKeepsConsistentIffSealed(s: Ftl)
    requires Consistent(s) && Collect(s).result.Ok?
    ensures Candidates(s) != {}
    ensures Consistent(Collect(s).state) <==> Sealed(s, Victim(s))
    ensures Total(Collect(s).state) == s.cfg.Capacity() <==> Sealed(s, Victim(s))
  {
    var v := Victim(s);
    CollectTotal(s, v);
    SealedNoneFree(s, v);
    if Sealed(s, v) {
      SealedCollectConsistent(s, v);
    } else if Consistent(Collect(s).state) {
      TotalIsCapacity(Collect(s).state);
    }
  }

  /** When a collection returns, from any consistent state: the live pages of the victim must fit
      in the cursor's pages plus the recycled pages outside the victim. */
  lemma CollectSucceeds(s: Ftl)
    requires Consistent(s)
    ensures Collect(s).result.Ok? <==>
              Candidates(s) != {} && |LiveAt(s, Victim(s))| <= Usable(s, Victim(s))
  {
    if Candidates(s) != {} {
      var v := Victim(s);
      RelocateSucceeds(Touch(s, v), v, SortedSet(LiveAt(s, v)));
      OutsideCountBounds(s.reclaimed, v);
    }
  }

  lemma SealedUsesAll(s: Ftl, v: BlockKey)
    requires AllocatorOk(s) && Sealed(s, v)
    ensures Usable(s, v) == FreePages(s)
  {
    forall p | p in s.reclaimed
      ensures Key(p) != v
    {
      assert p in Free(s);
      InBlockPages(s.cfg, v, p);
    }
    OutsideCountBounds(s.reclaimed, v);
  }

  /** States that differ at most in empty default entries. */
  ghost predicate SameContents(s: Ftl, t: Ftl) {
    && t.cfg == s.cfg && t.mapping == s.mapping && t.next == s.next && t.reclaimed == s.reclaimed
    && t.invalid == s.invalid
    && forall b :: LiveAt(t, b) == LiveAt(s, b) && EraseAt(t, b) == EraseAt(s, b)
  }

  lemma CollectEffect(s: Ftl, v: BlockKey)
    requires Consistent(s) && CollectVictim(s, v).result.Ok?
    ensures var o := CollectVictim(s, v);
            && FreePages(o.state) == FreePages(s) - |LiveAt(s, v)| + s.cfg.pagesPerBlock
            && o.state.mapping.Keys == s.mapping.Keys
            && EraseAt(o.state, v) == EraseAt(s, v) + 1 && InvalidAt(o.state, v) == 0
            && o.result.value == GcResult(v, |LiveAt(s, v)|, s.cfg.pagesPerBlock, EraseAt(s, v) + 1)
  {
    var live, t := SortedSet(LiveAt(s, v)), Touch(s, v);
    CollectLiveIs(t, v, live);
    RelocateSucceeds(t, v, live);
    LiveAreMapped(s, v);
    RelocateKeys(t, v, live);
    ReclaimCounts(Relocate(t, v, live).state, v);
    assert FreePages(t) == FreePages(s) && EraseAt(t, v) == EraseAt(s, v);
  }

  lemma SealedCollectRaises(s: Ftl, v: BlockKey)
    requires Consistent(s) && Sealed(s, v)
    ensures var o := CollectVictim(s, v);
            && (o.result.Ok? <==> |LiveAt(s, v)| <= FreePages(s))
            && (o.result.Err? ==> o.result.error == InsufficientWorkspace && SameContents(s, o.state))
  {
    SealedUsesAll(s, v);
    var t, live := Touch(s, v), SortedSet(LiveAt(s, v));
    assert Usable(t, v) == Usable(s, v);
    RelocateSucceeds(t, v, live);
    if FreePages(s) < |live| { TouchSame(s, v); }
  }

  lemma TouchSame(s: Ftl, v: BlockKey)
    ensures SameContents(s, Touch(s, v))
  {
  }

  /** With a sealed victim a collection is all or nothing: the workspace check decides, a raise
      leaves everything as it was, and success frees exactly the victim's invalid pages. */
  lemma SealedCollectAllOrNothing(s: Ftl)
    requires Consistent(s) && Candidates(s) != {} && Sealed(s, Victim(s))
    ensures var v, o := Victim(s), Collect(s);
            && (o.result.Ok? <==> |LiveAt(s, v)| <= FreePages(s))
            && (o.result.Err? ==> o.result.error == InsufficientWorkspace && SameContents(s, o.state))
            && (o.result.Ok? ==> FreePages(o.state) == FreePages(s) + InvalidAt(s, v) && InvalidAt(s, v) >= 1)
            && (o.result.Ok? ==> o.state.mapping.Keys == s.mapping.Keys)
            && (o.result.Ok? ==> EraseAt(o.state, v) == EraseAt(s, v) + 1 && InvalidAt(o.state, v) == 0)
  {
    var v := Victim(s);
    SealedCollectRaises(s, v);
    if Collect(s).result.Ok? {
      CollectEffect(s, v);
      CandidateInGeometry(s, v);
      BlockCensus(s, v);
      SealedNoneFree(s, v);
    }
  }

  // ----- runs

  datatype Op = WriteOp(lpn: int) | ReadOp(lpn: int) | GcOp

  datatype Reply = Page(page: PhysicalPage) | Collected(gc: GcResult) | Raised(error: FtlError)

  ghost function Step(s: Ftl, op: Op): (Ftl, Reply)
    requires s.cfg.Valid()
  {
    match op
    case ReadOp(l) => (s, Page(MapRead(s, l)))
    case WriteOp(l) =>
      var o := Write(s, l);
      (o.state, if o.result.Ok? then Page(o.result.value) else Raised(o.result.error))
    case GcOp =>
      var o := Collect(s);
      (o.state, if o.result.Ok? then Collected(o.result.value) else Raised(o.result.error))
  }

  lemma StepKeepsConfig(s: Ftl, op: Op)
    requires s.cfg.Valid()
    ensures Step(s, op).0.cfg == s.cfg
  {
  }

  ghost function Run(s: Ftl, ops: seq<Op>): (r: (Ftl, seq<Reply>))
    requires s.cfg.Valid()
    ensures r.0.cfg == s.cfg
    decreases |ops|
  {
    if ops == [] then (s, [])
    else
      StepKeepsConfig(s, ops[0]);
      var (s', reply) := Step(s, ops[0]);
      var (t, replies) := Run(s', ops[1..]);
      (t, [reply] + replies)
  }

  lemma FreshConsistent(cfg: Config)
    requires cfg.Valid()
    ensures Consistent(Fresh(cfg))
  {
    FreshCore(cfg);
    forall b ensures BlockOk(Fresh(cfg), b) { FreshBlock(cfg, b); }
  }

  lemma FreshCore(cfg: Config)
    requires cfg.Valid()
    ensures Core(Fresh(cfg))
  {
    assert cfg.Capacity() >= 0;
    assert Used(Fresh(cfg).mapping) == {};
  }

  lemma FreshBlock(cfg: Config, b: BlockKey)
    requires cfg.Valid() && Core(Fresh(cfg))
    ensures BlockOk(Fresh(cfg), b)
  {
    var s := Fresh(cfg);
    LinearRangeCount(cfg, 0, cfg.Capacity());
    assert ResidentOf(s.mapping, b) == {};
    forall p | p in PagesOf(cfg, b) ensures p in Free(s) { InBlockPages(cfg, b, p); PageToLinear(cfg, p); }
    assert Dead(s, b) == {};
  }

  // ----- a victim that is not sealed

  const SMALL := Config(1, 1, 1, 4, 0)

  /** A one-block device after `n` writes of lpn 5, the last of them to page n - 1. */
  function Rewritten(n: int): Ftl {
    var b := BlockKey(0, 0, 0);
    Ftl(SMALL, map[5 := PhysicalPage(0, 0, 0, n - 1)], if n == 1 then map[] else map[b := n - 1], map[b := {5}], map[], n, [])
  }

  lemma SmallNumbers()
    ensures SMALL.Valid() && SMALL.Dies() == 1 && SMALL.Capacity() == 4
    ensures forall n :: 0 <= n < 4 ==> PhysicalFromLinear(SMALL, n) == PhysicalPage(0, 0, 0, n)
  {
  }

  lemma RewriteOnce()
    ensures Write(Fresh(SMALL), 5) == Outcome(Rewritten(1), Ok(PhysicalPage(0, 0, 0, 0)))
  {
    SmallNumbers();
    var o := Write(Fresh(SMALL), 5);
    assert LiveAt(o.state, BlockKey(0, 0, 0)) == {5};
    assert o.state.mapping == Rewritten(1).mapping && o.state.valid == Rewritten(1).valid;
  }

  lemma RewriteTwice()
    ensures Write(Rewritten(1), 5) == Outcome(Rewritten(2), Ok(PhysicalPage(0, 0, 0, 1)))
  {
    assert {5} - {5} + {5} == {5};
  }

  lemma RewriteRun()
    ensures Consistent(Rewritten(2)) && Run(Fresh(SMALL), [WriteOp(5), WriteOp(5)]).0 == Rewritten(2)
  {
    FreshConsistent(SMALL);
    RewriteOnce();
    RewriteTwice();
    WriteKeepsConsistent(Fresh(SMALL), 5);
    WriteKeepsConsistent(Rewritten(1), 5);
    assert [WriteOp(5), WriteOp(5)][1..] == [WriteOp(5)];
    assert Run(Rewritten(2), []).0 == Rewritten(2);
    assert Run(Rewritten(1), [WriteOp(5)]).0 == Rewritten(2);
  }

  lemma RewriteUnsealed()
    requires AllocatorOk(Rewritten(2))
    ensures !Sealed(Rewritten(2), BlockKey(0, 0, 0))
  {
    var p := PhysicalPage(0, 0, 0, 2);
    SmallNumbers();
    AheadShrinks(Rewritten(2));
    assert p in Free(Rewritten(2)) && p in BlockPages(SMALL, BlockKey(0, 0, 0));
  }

  /** Two writes of lpn 5 on a one-block device, then a collection: the cursor hands the relocation
      a page of the victim, which is then erased under the mapping. */
  lemma UnsealedCollectBreaks()
    ensures var s := Run(Fresh(SMALL), [WriteOp(5), WriteOp(5)]).0;
            && Consistent(s) && Collect(s).result.Ok? && !Consistent(Collect(s).state)
            && Total(Collect(s).state) != SMALL.Capacity()
  {
    RewriteRun();
    RewriteUnsealed();
    var s, b := Rewritten(2), BlockKey(0, 0, 0);
    assert b in Candidates(s);
    assert Victim(s) == b;
    CollectSucceeds(s);
    CollectKeepsConsistentIffSealed(s);
  }

  // ----- a write that raises

  const ONE_PAGE := Config(1, 1, 1, 1, 0)

  /** The second write of lpn 5 on a one-page device raises, after counting the only copy as invalid. */
  lemma RaisedWriteBreaks()
    ensures ONE_PAGE.Valid()
    ensures var s := Write(Fresh(ONE_PAGE), 5).state;
            Consistent(s) && Write(s, 5).result == Err(CapacityExhausted) && !Consistent(Write(s, 5).state)
  {
    FreshConsistent(ONE_PAGE);
    WriteKeepsConsistent(Fresh(ONE_PAGE), 5);
    WriteKeepsConsistent(Write(Fresh(ONE_PAGE), 5).state, 5);
  }
}
