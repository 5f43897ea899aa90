/** Page conservation and garbage collection: block census, total census, all-or-nothing
    collection, and the exact condition under which a collection keeps the FTL consistent. */
module FtlConservation {
  import opened Common
  import opened Geometry
  import opened FtlSpec
  import opened FtlInvariants

  // ----- counting

  ghost function ImageOf(m: map<int, PhysicalPage>, keys: set<int>): set<PhysicalPage>
    requires keys <= m.Keys
  {
    set l | l in keys :: m[l]
  }

  lemma {:induction false} ImageCount(m: map<int, PhysicalPage>, keys: set<int>)
    requires Injective(m) && keys <= m.Keys
    ensures |ImageOf(m, keys)| == |keys|
  {
    if keys != {} {
      var l := Member(keys);
      var rest := keys - {l};
      assert keys == rest + {l};
      assert ImageOf(m, keys) == ImageOf(m, rest) + {m[l]};
      assert m[l] !in ImageOf(m, rest);
      ImageCount(m, rest);
    } else {
      assert ImageOf(m, keys) == {};
    }
  }

  lemma FreeCount(s: Ftl)
    requires AllocatorOk(s)
    ensures |Free(s)| == FreePages(s)
  {
    ElementsCount(s.reclaimed);
    LinearRangeCount(s.cfg, s.next, s.cfg.Capacity());
  }

  lemma PartitionCount(pages: set<PhysicalPage>, free: set<PhysicalPage>, m: map<int, PhysicalPage>)
    requires Used(m) !! free
    ensures |pages| == |pages * Used(m)| + |pages * free| + |DeadOf(pages, free, m)|
  {
    var used, dead := Used(m), DeadOf(pages, free, m);
    assert pages == pages * used + pages * free + dead;
    assert pages * used !! pages * free;
    assert (pages * used + pages * free) !! dead;
  }

  ghost function FreeIn(s: Ftl, b: BlockKey): set<PhysicalPage>
    requires AllocatorOk(s)
  {
    BlockPages(s.cfg, b) * Free(s)
  }

  lemma ResidentPages(s: Ftl, b: BlockKey)
    requires Core(s)
    ensures |BlockPages(s.cfg, b) * Used(s.mapping)| == |ResidentOf(s.mapping, b)|
  {
    var m, r := s.mapping, ResidentOf(s.mapping, b);
    forall p
      ensures p in BlockPages(s.cfg, b) * Used(m) <==> p in ImageOf(m, r)
    {
      InBlockPages(s.cfg, b, p);
    }
    assert BlockPages(s.cfg, b) * Used(m) == ImageOf(m, r);
    ImageCount(m, r);
  }

  /** In every block the live, invalid and free pages add up to the block. */
  lemma BlockCensus(s: Ftl, b: BlockKey)
    requires Consistent(s) && BlockInGeometry(s.cfg, b)
    ensures |LiveAt(s, b)| + InvalidAt(s, b) + |FreeIn(s, b)| == s.cfg.pagesPerBlock
  {
    assert BlockOk(s, b);
    BlockPagesCount(s.cfg, b);
    ResidentPages(s, b);
    PartitionCount(BlockPages(s.cfg, b), Free(s), s.mapping);
  }

  ghost function Pick(m: map<BlockKey, int>): (k: BlockKey)
    requires |m| > 0
    ensures k in m
  {
    assert m.Keys != {};
    var k :| k in m.Keys;
    k
  }

  ghost function Sum(m: map<BlockKey, int>): int
    decreases |m|
  {
    if |m| == 0 then 0 else m[Pick(m)] + Sum(m - {Pick(m)})
  }

  lemma {:induction false} SumSplits(m: map<BlockKey, int>, k: BlockKey)
    requires k in m
    ensures Sum(m) == m[k] + Sum(m - {k})
    decreases |m|
  {
    var j := Pick(m);
    if j != k {
      var a, b := m - {j}, m - {k};
      SumSplits(a, k);
      SumSplits(b, j);
      assert a - {k} == b - {j};
    }
  }

  /** Dead pages in the blocks `keys`. */
  ghost function DeadAmong(s: Ftl, keys: set<BlockKey>): set<PhysicalPage>
    requires Core(s)
  {
    set p | p in DeadOf(LinearRange(s.cfg, 0, s.cfg.Capacity()), Free(s), s.mapping) && Key(p) in keys
  }

  lemma DeadAmongSplits(s: Ftl, keys: set<BlockKey>, k: BlockKey)
    requires Core(s) && k in keys
    ensures |DeadAmong(s, keys)| == |DeadAmong(s, keys - {k})| + |Dead(s, k)|
  {
    LinearRangeCount(s.cfg, 0, s.cfg.Capacity());
    forall p
      ensures p in DeadAmong(s, {k}) <==> p in Dead(s, k)
    {
      InBlockPages(s.cfg, k, p);
      if InGeometry(s.cfg, p) { PageToLinear(s.cfg, p); }
    }
    assert DeadAmong(s, {k}) == Dead(s, k);
    assert DeadAmong(s, keys) == DeadAmong(s, keys - {k}) + DeadAmong(s, {k});
    assert DeadAmong(s, keys - {k}) !! DeadAmong(s, {k});
  }

  lemma {:induction false} SumCountsDead(s: Ftl, m: map<BlockKey, int>)
    requires Core(s) && forall b :: b in m ==> m[b] == |Dead(s, b)|
    ensures Sum(m) == |DeadAmong(s, m.Keys)|
    decreases |m|
  {
    if |m| == 0 {
      assert m.Keys == {};
      assert DeadAmong(s, m.Keys) == {};
    } else {
      var k :| k in m;
      SumSplits(m, k);
      DeadAmongSplits(s, m.Keys, k);
      assert (m - {k}).Keys == m.Keys - {k};
      SumCountsDead(s, m - {k});
    }
  }

  /** Live, invalid and free pages as the FTL itself counts them. */
  ghost function Total(s: Ftl): int {
    |s.mapping| + Sum(s.invalid) + FreePages(s)
  }

  lemma AllDead(s: Ftl)
    requires Consistent(s)
    ensures Sum(s.invalid) == |DeadOf(LinearRange(s.cfg, 0, s.cfg.Capacity()), Free(s), s.mapping)|
  {
    forall b | b in s.invalid ensures s.invalid[b] == |Dead(s, b)| { assert BlockOk(s, b); }
    SumCountsDead(s, s.invalid);
    LinearRangeCount(s.cfg, 0, s.cfg.Capacity());
    var dead := DeadOf(LinearRange(s.cfg, 0, s.cfg.Capacity()), Free(s), s.mapping);
    forall p | p in dead
      ensures Key(p) in s.invalid
    {
      InBlockPages(s.cfg, Key(p), p);
      assert p in Dead(s, Key(p));
      assert BlockOk(s, Key(p));
    }
    assert DeadAmong(s, s.invalid.Keys) == dead;
  }

  lemma PagesInRange(s: Ftl)
    requires Core(s)
    ensures Used(s.mapping) <= LinearRange(s.cfg, 0, s.cfg.Capacity())
    ensures Free(s) <= LinearRange(s.cfg, 0, s.cfg.Capacity())
  {
    LinearRangeCount(s.cfg, 0, s.cfg.Capacity());
    LinearRangeCount(s.cfg, s.next, s.cfg.Capacity());
    forall p | p in Used(s.mapping) + Free(s)
      ensures p in LinearRange(s.cfg, 0, s.cfg.Capacity())
    {
      assert InGeometry(s.cfg, p);
      PageToLinear(s.cfg, p);
    }
  }

  lemma CoverCount(all: set<PhysicalPage>, free: set<PhysicalPage>, m: map<int, PhysicalPage>)
    requires Injective(m) && Used(m) !! free && Used(m) <= all && free <= all
    ensures |all| == |m| + |free| + |DeadOf(all, free, m)|
  {
    PartitionCount(all, free, m);
    assert all * Used(m) == Used(m) && all * free == free;
    ImageCount(m, m.Keys);
    assert Used(m) == ImageOf(m, m.Keys);
  }

  /** A consistent FTL accounts for every page exactly once. */
  lemma TotalIsCapacity(s: Ftl)
    requires Consistent(s)
    ensures Total(s) == s.cfg.Capacity()
  {
    LinearRangeCount(s.cfg, 0, s.cfg.Capacity());
    FreeCount(s);
    AllDead(s);
    PagesInRange(s);
    CoverCount(LinearRange(s.cfg, 0, s.cfg.Capacity()), Free(s), s.mapping);
  }
}
