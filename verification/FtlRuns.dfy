/** Which runs of the FTL keep its tables consistent: a condition on the raw fields before each
    operation, proved exact. */
module FtlRuns {
  import opened Common
  import opened Geometry
  import opened FtlSpec
  import opened FtlInvariants
  import opened FtlConservation
  import opened FtlCollect

  /** No page of `v` is recycled or still ahead of the cursor. */
  ghost predicate Clear(s: Ftl, v: BlockKey)
    requires s.cfg.Valid()
  {
    && (forall p :: p in s.reclaimed ==> Key(p) != v)
    && (forall n :: s.next <= n < s.cfg.Capacity() ==> Key(PhysicalFromLinear(s.cfg, n)) != v)
  }

  lemma SealedIsClear(s: Ftl, v: BlockKey)
    requires AllocatorOk(s)
    ensures Sealed(s, v) <==> Clear(s, v)
  {
    LinearRangeCount(s.cfg, s.next, s.cfg.Capacity());
    if Sealed(s, v) {
      forall n | s.next <= n < s.cfg.Capacity()
        ensures Key(PhysicalFromLinear(s.cfg, n)) != v
      {
        LinearToPage(s.cfg, n);
        InBlockPages(s.cfg, v, PhysicalFromLinear(s.cfg, n));
      }
      forall p | p in s.reclaimed ensures Key(p) != v { InBlockPages(s.cfg, v, p); }
    } else {
      var p :| p in Free(s) && p in BlockPages(s.cfg, v);
      InBlockPages(s.cfg, v, p);
      if p !in s.reclaimed {
        PageToLinear(s.cfg, p);
        assert Key(PhysicalFromLinear(s.cfg, Linear(s.cfg, p))) == v;
      }
    }
  }

  /** A collection of `v` leaves the tables exact: `v` is clear, or the workspace check refuses it,
      or the very first relocation finds no page. */
  ghost predicate SafeVictim(s: Ftl, v: BlockKey)
    requires s.cfg.Valid()
  {
    || Clear(s, v)
    || FreePages(s) < |LiveAt(s, v)|
    || (Usable(s, v) == 0 && LiveAt(s, v) != {})
  }

  /** What a caller can look up before an operation. */
  ghost predicate CarefulStep(s: Ftl, op: Op)
    requires s.cfg.Valid()
  {
    match op
    case ReadOp(_) => true
    case WriteOp(l) => FreePages(s) > 0 || l !in s.mapping
    case GcOp => Candidates(s) == {} || SafeVictim(s, Victim(s))
  }

  // ----- a collection that raises after moving something

  lemma {:induction false} RelocateDeadGrows(s: Ftl, v: BlockKey, lpns: seq<int>, b: BlockKey)
    requires Core(s)
    ensures var t := Relocate(s, v, lpns).state; Core(t) && |Dead(t, b)| >= |Dead(s, b)|
    decreases |lpns|
  {
    if lpns != [] {
      var o := Place(s, lpns[0], Some(v));
      if o.result.Ok? {
        PlaceDead(s, lpns[0], Some(v), b);
        RelocateDeadGrows(o.state, v, lpns[1..], b);
      } else {
        AllocateFails(s, v);
      }
    }
  }

  /** An allocation that raises has turned the deque once around. */
  lemma AllocateFails(s: Ftl, v: BlockKey)
    requires s.cfg.Valid() && Allocate(s, Some(v)).result.Err?
    ensures Allocate(s, Some(v)).state == s
  {
  }

  /** Moving one page out of the victim leaves a dead page there that no count records. */
  lemma PartialRelocationBreaks(s: Ftl, v: BlockKey, lpns: seq<int>)
    requires Core(s) && BlockOk(s, v) && lpns != [] && lpns[0] in LiveAt(s, v) && Usable(s, v) > 0
    ensures var t := Relocate(s, v, lpns).state; Core(t) && !BlockOk(t, v)
  {
    var o := Place(s, lpns[0], Some(v));
    PlaceUses(s, v, lpns[0]);
    VacatedBlock(s, lpns[0], v);
    assert lpns[0] in ResidentOf(s.mapping, v);
    PlaceDead(s, lpns[0], Some(v), v);
    RelocateDeadGrows(o.state, v, lpns[1..], v);
    RelocateSucceeds(s, v, lpns);
  }

  lemma FirstFails(s: Ftl, v: BlockKey, lpns: seq<int>)
    requires s.cfg.Valid() && s.next <= s.cfg.Capacity() && lpns != [] && Usable(s, v) == 0
    ensures Relocate(s, v, lpns).state == s && Relocate(s, v, lpns).result.Err?
  {
    PlaceUses(s, v, lpns[0]);
    AllocateFails(s, v);
  }

  lemma RaisedCollect(s: Ftl, v: BlockKey)
    requires Consistent(s) && CollectVictim(s, v).result.Err?
    ensures Consistent(CollectVictim(s, v).state) <==> FreePages(s) < |LiveAt(s, v)| || Usable(s, v) == 0
  {
    TouchKeepsConsistent(s, v);
    var t, live := Touch(s, v), SortedSet(LiveAt(s, v));
    if FreePages(s) >= |live| {
      RelocateSucceeds(t, v, live);
      assert Usable(t, v) == Usable(s, v);
      OutsideCountBounds(s.reclaimed, v);
      assert live[0] in live;
      if Usable(s, v) == 0 {
        FirstFails(t, v, live);
      } else {
        assert BlockOk(t, v);
        PartialRelocationBreaks(t, v, live);
      }
    }
  }

  // ----- exactness

  /** A collection, returning or raising, keeps the FTL consistent exactly when its victim is safe. */
  lemma CollectConsistentIffSafe(s: Ftl)
    requires Consistent(s) && Candidates(s) != {}
    ensures Consistent(Collect(s).state) <==> SafeVictim(s, Victim(s))
  {
    var v := Victim(s);
    SealedIsClear(s, v);
    CollectSucceeds(s);
    UsableAtMostFree(s, v);
    LiveCount(s, v);
    if Collect(s).result.Ok? {
      CollectKeepsConsistentIffSealed(s);
    } else {
      RaisedCollect(s, v);
      if Sealed(s, v) { SealedCollectRaises(s, v); }
    }
  }

  lemma UsableAtMostFree(s: Ftl, v: BlockKey)
    ensures Usable(s, v) <= FreePages(s)
  {
    OutsideCountBounds(s.reclaimed, v);
  }

  lemma LiveCount(s: Ftl, v: BlockKey)
    ensures LiveAt(s, v) == {} <==> |LiveAt(s, v)| == 0
  {
  }

  /** From a consistent FTL a step leads to a consistent one exactly when it is careful. */
  lemma StepConsistentIffCareful(s: Ftl, op: Op)
    requires Consistent(s)
    ensures Consistent(Step(s, op).0) <==> CarefulStep(s, op)
  {
    match op
    case ReadOp(_) =>
    case WriteOp(l) => WriteKeepsConsistent(s, l);
    case GcOp => if Candidates(s) != {} { CollectConsistentIffSafe(s); }
  }

  /** Every operation is careful when its turn comes. */
  ghost predicate Careful(s: Ftl, ops: seq<Op>)
    requires s.cfg.Valid()
    decreases |ops|
  {
    ops == [] ||
    (StepKeepsConfig(s, ops[0]);
     CarefulStep(s, ops[0]) && Careful(Step(s, ops[0]).0, ops[1..]))
  }

  ghost predicate AlwaysConsistent(s: Ftl, ops: seq<Op>)
    requires s.cfg.Valid()
  {
    forall k :: 0 <= k <= |ops| ==> Consistent(Run(s, ops[..k]).0)
  }

  lemma RunPrefix(s: Ftl, ops: seq<Op>, k: nat)
    requires s.cfg.Valid() && ops != [] && k < |ops|
    ensures Step(s, ops[0]).0.cfg.Valid() && Run(s, ops[..k + 1]).0 == Run(Step(s, ops[0]).0, ops[1..][..k]).0
  {
    StepKeepsConfig(s, ops[0]);
    assert ops[..k + 1][0] == ops[0] && ops[..k + 1][1..] == ops[1..][..k];
  }

  lemma AlwaysSplits(s: Ftl, ops: seq<Op>)
    requires s.cfg.Valid() && ops != []
    ensures Step(s, ops[0]).0.cfg.Valid()
    ensures AlwaysConsistent(s, ops) <==> Consistent(s) && AlwaysConsistent(Step(s, ops[0]).0, ops[1..])
  {
    StepKeepsConfig(s, ops[0]);
    var s' := Step(s, ops[0]).0;
    assert Run(s, ops[..0]).0 == s;
    if AlwaysConsistent(s, ops) {
      forall k | 0 <= k <= |ops[1..]| ensures Consistent(Run(s', ops[1..][..k]).0) {
        RunPrefix(s, ops, k);
        assert Consistent(Run(s, ops[..k + 1]).0);
      }
    }
    if Consistent(s) && AlwaysConsistent(s', ops[1..]) {
      forall k | 0 <= k <= |ops| ensures Consistent(Run(s, ops[..k]).0) {
        if k > 0 { RunPrefix(s, ops, k - 1); }
      }
    }
  }

  /** A run from a consistent FTL stays consistent throughout exactly when it is careful. */
  lemma {:induction false} RunConsistentIffCareful(s: Ftl, ops: seq<Op>)
    requires Consistent(s)
    ensures AlwaysConsistent(s, ops) <==> Careful(s, ops)
    decreases |ops|
  {
    if ops == [] {
      assert Run(s, ops[..0]).0 == s;
    } else {
      AlwaysSplits(s, ops);
      StepConsistentIffCareful(s, ops[0]);
      var s' := Step(s, ops[0]).0;
      if Consistent(s') {
        RunConsistentIffCareful(s', ops[1..]);
      } else {
        assert Run(s', ops[1..][..0]).0 == s';
      }
    }
  }

  /** Over every careful run all five structures agree and no page is lost. */
  lemma CarefulRunKeepsConsistent(s: Ftl, ops: seq<Op>)
    requires Consistent(s) && Careful(s, ops)
    ensures Consistent(Run(s, ops).0) && Total(Run(s, ops).0) == s.cfg.Capacity()
  {
    RunConsistentIffCareful(s, ops);
    assert ops[..|ops|] == ops;
    TotalIsCapacity(Run(s, ops).0);
  }
}
