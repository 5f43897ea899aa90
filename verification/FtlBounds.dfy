/** What survives even careless use: writes that raise and collections of unsealed victims may
    break the FTL's bookkeeping, but every page it hands out stays inside the geometry. */
module FtlBounds {
  import opened Common
  import opened Geometry
  import opened FtlSpec
  import opened FtlCollect

  ghost predicate InBounds(s: Ftl) {
    && s.cfg.Valid() && 0 <= s.next <= s.cfg.Capacity()
    && (forall l :: l in s.mapping ==> InGeometry(s.cfg, s.mapping[l]))
    && (forall p :: p in s.reclaimed ==> InGeometry(s.cfg, p))
    && (forall b :: b in s.invalid ==> BlockInGeometry(s.cfg, b))
  }

  lemma FreshInBounds(cfg: Config)
    requires cfg.Valid()
    ensures InBounds(Fresh(cfg))
  {
    CapacityFactors(cfg);
    assert cfg.blocksPerDie * cfg.pagesPerBlock * cfg.Dies() >= 0;
  }

  lemma PlaceInBounds(s: Ftl, lpn: int, avoid: Option<BlockKey>)
    requires InBounds(s)
    ensures var o := Place(s, lpn, avoid); InBounds(o.state) && (o.result.Ok? ==> InGeometry(s.cfg, o.result.value))
  {
    if s.next < s.cfg.Capacity() { LinearToPage(s.cfg, s.next); }
    var k := FirstOutside(s.reclaimed, avoid);
    if k < |s.reclaimed| {
      assert s.reclaimed[k] in s.reclaimed;
    }
  }

  lemma WriteInBounds(s: Ftl, lpn: int)
    requires InBounds(s)
    ensures var o := Write(s, lpn); InBounds(o.state) && (o.result.Ok? ==> InGeometry(s.cfg, o.result.value))
  {
    PlaceInBounds(Invalidate(s, lpn), lpn, None);
  }

  lemma {:induction false} RelocateInBounds(s: Ftl, v: BlockKey, lpns: seq<int>)
    requires InBounds(s)
    ensures InBounds(Relocate(s, v, lpns).state)
    decreases |lpns|
  {
    if lpns != [] {
      PlaceInBounds(s, lpns[0], Some(v));
      var o := Place(s, lpns[0], Some(v));
      if o.result.Ok? { RelocateInBounds(o.state, v, lpns[1..]); }
    }
  }

  lemma ReclaimInBounds(s: Ftl, v: BlockKey)
    requires InBounds(s) && BlockInGeometry(s.cfg, v)
    ensures InBounds(Reclaim(s, v))
  {
    var all := BlockPageSeq(s.cfg, v);
    forall p | p in all
      ensures InGeometry(s.cfg, p)
    {
      var i :| 0 <= i < |all| && all[i] == p;
    }
  }

  lemma CollectInBounds(s: Ftl)
    requires InBounds(s)
    ensures InBounds(Collect(s).state)
  {
    if Candidates(s) != {} {
      var v := Victim(s);
      assert v in s.invalid;
      var live := SortedSet(LiveAt(s, v));
      RelocateInBounds(Touch(s, v), v, live);
      ReclaimInBounds(Relocate(Touch(s, v), v, live).state, v);
    }
  }

  lemma MapReadInBounds(s: Ftl, lpn: int)
    requires InBounds(s)
    ensures InGeometry(s.cfg, MapRead(s, lpn))
  {
    if lpn !in s.mapping {
      assert s.cfg.Dies() == s.cfg.diesPerChannel * s.cfg.channels;
      QuotientBound(lpn % s.cfg.Dies(), s.cfg.diesPerChannel, s.cfg.channels);
    }
  }

  lemma StepInBounds(s: Ftl, op: Op)
    requires InBounds(s)
    ensures var (s', reply) := Step(s, op); InBounds(s') && s'.cfg == s.cfg && (reply.Page? ==> InGeometry(s.cfg, reply.page))
  {
    StepKeepsConfig(s, op);
    match op
    case ReadOp(l) => MapReadInBounds(s, l);
    case WriteOp(l) => WriteInBounds(s, l);
    case GcOp => CollectInBounds(s);
  }

  /** In every run, careful or not, reads and writes are directed to pages of the geometry. */
  lemma {:induction false} RunInBounds(s: Ftl, ops: seq<Op>)
    requires InBounds(s)
    ensures InBounds(Run(s, ops).0)
    ensures forall i :: 0 <= i < |Run(s, ops).1| && Run(s, ops).1[i].Page? ==> InGeometry(s.cfg, Run(s, ops).1[i].page)
    decreases |ops|
  {
    if ops != [] {
      StepInBounds(s, ops[0]);
      RunInBounds(Step(s, ops[0]).0, ops[1..]);
    }
  }
}
