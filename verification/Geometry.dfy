/** Controller geometry and the striped linear page numbering of the FTL allocator
    (src/openflash/model.py, src/openflash/ftl.py). */
module Geometry {

  datatype Config = Config(channels: int, diesPerChannel: int, blocksPerDie: int, pagesPerBlock: int,
                           gcLowWatermarkBlocks: int)
  {
    predicate Valid() {
      channels > 0 && diesPerChannel > 0 && blocksPerDie > 0 && pagesPerBlock > 0 && gcLowWatermarkBlocks >= 0
    }

    function Dies(): (d: int)
      ensures Valid() ==> d > 0
    {
      channels * diesPerChannel
    }

    function Capacity(): int {
      Dies() * blocksPerDie * pagesPerBlock
    }
  }

  datatype PhysicalPage = PhysicalPage(channel: int, die: int, block: int, page: int)

  datatype BlockKey = BlockKey(channel: int, die: int, block: int)

  function Key(p: PhysicalPage): BlockKey {
    BlockKey(p.channel, p.die, p.block)
  }

  predicate BlockInGeometry(cfg: Config, b: BlockKey) {
    0 <= b.channel < cfg.channels && 0 <= b.die < cfg.diesPerChannel && 0 <= b.block < cfg.blocksPerDie
  }

  predicate InGeometry(cfg: Config, p: PhysicalPage) {
    BlockInGeometry(cfg, Key(p)) && 0 <= p.page < cfg.pagesPerBlock
  }

  /** Consecutive numbers go to consecutive channels, then dies, then pages, then blocks. */
  function PhysicalFromLinear(cfg: Config, linear: int): (p: PhysicalPage)
    requires cfg.Valid()
  {
    var stripe := linear % cfg.Dies();
    var perDie := linear / cfg.Dies();
    PhysicalPage(stripe % cfg.channels, stripe / cfg.channels,
                 perDie / cfg.pagesPerBlock, perDie % cfg.pagesPerBlock)
  }

  /** The inverse numbering; the source never computes it. */
  function Linear(cfg: Config, p: PhysicalPage): int {
    (p.block * cfg.pagesPerBlock + p.page) * cfg.Dies() + (p.die * cfg.channels + p.channel)
  }

  lemma DivMod(q: int, r: int, d: int)
    requires 0 <= r < d
    ensures (q * d + r) / d == q && (q * d + r) % d == r
  {
    var a := q * d + r;
    var k := a / d - q;
    assert k >= 1 ==> k * d >= d;
    assert k <= -1 ==> k * d <= -d;
    assert k * d == r - a % d;
  }

  /** A mixed-radix digit pair q * d + r with q < n stays below n * d. */
  lemma DigitBound(q: int, r: int, n: int, d: int)
    requires 0 <= r < d && 0 <= q < n
    ensures 0 <= q * d + r < n * d
  {
    assert (q + 1) * d <= n * d;
    assert 0 <= q * d;
  }

  lemma QuotientBound(a: int, n: int, d: int)
    requires d > 0 && 0 <= a < n * d
    ensures 0 <= a / d < n
  {
    var q := a / d;
    assert q >= n ==> q * d >= n * d;
    assert q < 0 ==> q * d <= -1 * d;
    assert a == q * d + a % d;
  }

  lemma CapacityFactors(cfg: Config)
    ensures cfg.Capacity() == (cfg.blocksPerDie * cfg.pagesPerBlock) * cfg.Dies()
  {
    var d, b, p := cfg.Dies(), cfg.blocksPerDie, cfg.pagesPerBlock;
    assert d * b * p == d * (b * p);
    assert d * (b * p) == (b * p) * d;
  }

  /** Every number in [0, capacity) names a page of the geometry, and distinct numbers name
      distinct pages: the number can be read back. */
  lemma LinearToPage(cfg: Config, n: int)
    requires cfg.Valid() && 0 <= n < cfg.Capacity()
    ensures InGeometry(cfg, PhysicalFromLinear(cfg, n))
    ensures Linear(cfg, PhysicalFromLinear(cfg, n)) == n
  {
    CapacityFactors(cfg);
    var stripe, perDie := n % cfg.Dies(), n / cfg.Dies();
    QuotientBound(n, cfg.blocksPerDie * cfg.pagesPerBlock, cfg.Dies());
    QuotientBound(perDie, cfg.blocksPerDie, cfg.pagesPerBlock);
    assert cfg.Dies() == cfg.diesPerChannel * cfg.channels;
    QuotientBound(stripe, cfg.diesPerChannel, cfg.channels);
    assert stripe == stripe / cfg.channels * cfg.channels + stripe % cfg.channels;
    assert perDie == perDie / cfg.pagesPerBlock * cfg.pagesPerBlock + perDie % cfg.pagesPerBlock;
  }

  /** Every page of the geometry has a number in [0, capacity): the cursor misses none. */
  lemma PageToLinear(cfg: Config, p: PhysicalPage)
    requires cfg.Valid() && InGeometry(cfg, p)
    ensures 0 <= Linear(cfg, p) < cfg.Capacity()
    ensures PhysicalFromLinear(cfg, Linear(cfg, p)) == p
  {
    CapacityFactors(cfg);
    var stripe, perDie := p.die * cfg.channels + p.channel, p.block * cfg.pagesPerBlock + p.page;
    assert cfg.Dies() == cfg.diesPerChannel * cfg.channels;
    DigitBound(p.die, p.channel, cfg.diesPerChannel, cfg.channels);
    DigitBound(p.block, p.page, cfg.blocksPerDie, cfg.pagesPerBlock);
    DigitBound(perDie, stripe, cfg.blocksPerDie * cfg.pagesPerBlock, cfg.Dies());
    DivMod(perDie, stripe, cfg.Dies());
    DivMod(p.die, p.channel, cfg.channels);
    DivMod(p.block, p.page, cfg.pagesPerBlock);
  }

  /** The pages of one erase block. */
  function BlockPages(cfg: Config, b: BlockKey): set<PhysicalPage> {
    set i | 0 <= i < cfg.pagesPerBlock :: PhysicalPage(b.channel, b.die, b.block, i)
  }

  ghost function FirstPages(b: BlockKey, n: nat): (r: set<PhysicalPage>) {
    set i | 0 <= i < n :: PhysicalPage(b.channel, b.die, b.block, i)
  }

  lemma {:induction false} FirstPagesCount(b: BlockKey, n: nat)
    ensures |FirstPages(b, n)| == n
  {
    if n > 0 {
      var last := PhysicalPage(b.channel, b.die, b.block, n - 1);
      assert FirstPages(b, n) == FirstPages(b, n - 1) + {last};
      FirstPagesCount(b, n - 1);
    } else {
      assert FirstPages(b, n) == {};
    }
  }

  lemma BlockPagesCount(cfg: Config, b: BlockKey)
    requires cfg.Valid()
    ensures |BlockPages(cfg, b)| == cfg.pagesPerBlock
  {
    assert BlockPages(cfg, b) == FirstPages(b, cfg.pagesPerBlock);
    FirstPagesCount(b, cfg.pagesPerBlock);
  }

  lemma InBlockPages(cfg: Config, b: BlockKey, p: PhysicalPage)
    ensures p in BlockPages(cfg, b) <==> Key(p) == b && 0 <= p.page < cfg.pagesPerBlock
  {
    if Key(p) == b && 0 <= p.page < cfg.pagesPerBlock {
      assert p == PhysicalPage(b.channel, b.die, b.block, p.page);
    }
  }

  /** The pages numbered [lo, hi) by the cursor. */
  ghost function LinearRange(cfg: Config, lo: nat, hi: nat): (r: set<PhysicalPage>)
    requires cfg.Valid()
  {
    if hi <= lo then {} else LinearRange(cfg, lo, hi - 1) + {PhysicalFromLinear(cfg, hi - 1)}
  }

  lemma {:induction false} LinearRangeCount(cfg: Config, lo: nat, hi: nat)
    requires cfg.Valid() && lo <= hi <= cfg.Capacity()
    ensures |LinearRange(cfg, lo, hi)| == hi - lo
    ensures forall p :: p in LinearRange(cfg, lo, hi) <==> InGeometry(cfg, p) && lo <= Linear(cfg, p) < hi
    decreases hi
  {
    if lo < hi {
      LinearRangeCount(cfg, lo, hi - 1);
      LinearToPage(cfg, hi - 1);
      forall p | InGeometry(cfg, p) && Linear(cfg, p) == hi - 1
        ensures p == PhysicalFromLinear(cfg, hi - 1)
      {
        PageToLinear(cfg, p);
      }
    }
  }
}
