/** Where reads go: a written lpn to the page that holds what was last put there, an unwritten one
    to a page fixed by its number. */
module FtlReads {
  import opened Common
  import opened Geometry
  import opened FtlSpec
  import opened FtlInvariants
  import opened FtlCollect
  import opened FtlRuns
  import opened FtlFlash

  // ----- unwritten lpns

  /** The lpn that reads `p` as long as it is unwritten; the source never computes it. */
  function StripeNumber(cfg: Config, p: PhysicalPage): int {
    (p.page * cfg.blocksPerDie + p.block) * cfg.Dies() + (p.die * cfg.channels + p.channel)
  }

  lemma DivideTwice(a: int, d: int, b: int)
    requires d > 0 && b > 0
    ensures d * b > 0 && a / (d * b) == a / d / b
  {
    var q := a / d;
    TwoDigits(a, q, a % d, q / b, q % b, d, b);
  }

  lemma TwoDigits(a: int, q: int, r: int, h: int, k: int, d: int, b: int)
    requires a == q * d + r && q == h * b + k && 0 <= r < d && 0 <= k < b
    ensures d * b > 0 && a / (d * b) == h
  {
    DigitBound(k, r, b, d);
    Regrouped(h, k, r, b, d);
    DivMod(h, k * d + r, d * b);
  }

  lemma Regrouped(h: int, k: int, r: int, b: int, d: int)
    ensures (h * b + k) * d + r == h * (d * b) + (k * d + r) && b * d == d * b
  {
    assert (h * b + k) * d == h * b * d + k * d;
    assert h * b * d == h * (b * d);
  }

  /** Below capacity every unwritten lpn reads a page of the geometry, and its own one. */
  lemma UnwrittenPage(s: Ftl, l: int)
    requires s.cfg.Valid() && l !in s.mapping && 0 <= l < s.cfg.Capacity()
    ensures InGeometry(s.cfg, MapRead(s, l)) && StripeNumber(s.cfg, MapRead(s, l)) == l
  {
    var cfg := s.cfg;
    var stripe, a := l % cfg.Dies(), l / cfg.Dies();
    assert cfg.Capacity() == (cfg.pagesPerBlock * cfg.blocksPerDie) * cfg.Dies() by {
      CapacityFactors(cfg);
      assert cfg.blocksPerDie * cfg.pagesPerBlock == cfg.pagesPerBlock * cfg.blocksPerDie;
    }
    QuotientBound(l, cfg.pagesPerBlock * cfg.blocksPerDie, cfg.Dies());
    QuotientBound(a, cfg.pagesPerBlock, cfg.blocksPerDie);
    DivideTwice(l, cfg.Dies(), cfg.blocksPerDie);
    Remainder(a / cfg.blocksPerDie, cfg.pagesPerBlock);
    assert cfg.Dies() == cfg.diesPerChannel * cfg.channels;
    QuotientBound(stripe, cfg.diesPerChannel, cfg.channels);
    assert stripe == stripe / cfg.channels * cfg.channels + stripe % cfg.channels;
    assert a == a / cfg.blocksPerDie * cfg.blocksPerDie + a % cfg.blocksPerDie;
    assert l == a * cfg.Dies() + stripe;
  }

  lemma Remainder(a: int, d: int)
    requires 0 <= a < d
    ensures a % d == a
  {
    DivMod(0, a, d);
  }

  /** Every page of the geometry is read by an unwritten lpn below capacity, if its number is one. */
  lemma UnwrittenOnto(s: Ftl, p: PhysicalPage)
    requires s.cfg.Valid() && InGeometry(s.cfg, p) && StripeNumber(s.cfg, p) !in s.mapping
    ensures 0 <= StripeNumber(s.cfg, p) < s.cfg.Capacity() && MapRead(s, StripeNumber(s.cfg, p)) == p
  {
    var cfg, l := s.cfg, StripeNumber(s.cfg, p);
    var stripe, a := p.die * cfg.channels + p.channel, p.page * cfg.blocksPerDie + p.block;
    CapacityFactors(cfg);
    assert cfg.Dies() == cfg.diesPerChannel * cfg.channels;
    assert cfg.blocksPerDie * cfg.pagesPerBlock == cfg.pagesPerBlock * cfg.blocksPerDie;
    DigitBound(p.die, p.channel, cfg.diesPerChannel, cfg.channels);
    DigitBound(p.page, p.block, cfg.pagesPerBlock, cfg.blocksPerDie);
    DigitBound(a, stripe, cfg.pagesPerBlock * cfg.blocksPerDie, cfg.Dies());
    DivMod(a, stripe, cfg.Dies());
    DivMod(p.die, p.channel, cfg.channels);
    DivMod(p.page, p.block, cfg.blocksPerDie);
    DivideTwice(l, cfg.Dies(), cfg.blocksPerDie);
    Remainder(p.page, cfg.pagesPerBlock);
  }

  // ----- written lpns

  /** What a read of `l` finds in the cell it is sent to. */
  function Fetch<D>(s: Ftl, f: Flash<D>, l: int): Option<D>
    requires s.cfg.Valid()
  {
    var p := MapRead(s, l);
    if p in f.cells then Some(f.cells[p]) else None
  }

  /** A read of an lpn that holds data finds that data. */
  lemma FetchView<D>(s: Ftl, f: Flash<D>, l: int)
    requires FlashOk(s, f) && l in s.mapping
    ensures l in View(s, f) && Fetch(s, f, l) == Some(View(s, f)[l])
  {
  }

  lemma {:induction false} PlainAt<D>(ops: seq<DataOp<D>>, k: nat)
    requires k <= |ops|
    ensures PlainAll(ops[..k]) == PlainAll(ops)[..k] && (k < |ops| ==> PlainAll(ops)[k] == Plain(ops[k]))
    decreases |ops|
  {
    if ops == [] || k == 0 {
      assert ops[..0] == [];
    } else {
      PlainAt(ops[1..], k - 1);
      assert ops[..k][1..] == ops[1..][..k - 1] && ops[..k][0] == ops[0];
    }
  }

  /** Cutting a run short cuts its replies short, and the next reply comes from where it stopped. */
  lemma {:induction false} RunCut(s: Ftl, ops: seq<Op>, k: nat)
    requires s.cfg.Valid() && k < |ops|
    ensures Run(s, ops[..k]).0.cfg == s.cfg && |Run(s, ops).1| == |ops|
    ensures Run(s, ops[..k]).1 == Run(s, ops).1[..k]
    ensures Run(s, ops).1[k] == Step(Run(s, ops[..k]).0, ops[k]).1
    decreases |ops|
  {
    RunReplies(s, ops);
    StepKeepsConfig(s, ops[0]);
    if k == 0 {
      assert ops[..0] == [];
    } else {
      RunCut(Step(s, ops[0]).0, ops[1..], k - 1);
      assert ops[..k][0] == ops[0] && ops[..k][1..] == ops[1..][..k - 1];
    }
  }

  lemma {:induction false} CarefulCut(s: Ftl, ops: seq<Op>, k: nat)
    requires s.cfg.Valid() && Careful(s, ops) && k <= |ops|
    ensures Careful(s, ops[..k])
    decreases |ops|
  {
    if k > 0 {
      StepKeepsConfig(s, ops[0]);
      CarefulCut(Step(s, ops[0]).0, ops[1..], k - 1);
      assert ops[..k][0] == ops[0] && ops[..k][1..] == ops[1..][..k - 1];
    }
  }

  /** The reply to a read is the page that was fixed by the FTL at that moment. */
  lemma ReplyAt<D>(s: Ftl, ops: seq<DataOp<D>>, k: nat)
    requires s.cfg.Valid() && k < |ops| && ops[k].Get?
    ensures var before := Run(s, PlainAll(ops[..k]));
            && before.0.cfg == s.cfg && |Run(s, PlainAll(ops)).1| == |ops| && |before.1| == k
            && before.1 == Run(s, PlainAll(ops)).1[..k]
            && Run(s, PlainAll(ops)).1[k] == Page(MapRead(before.0, ops[k].lpn))
  {
    PlainAt(ops, k);
    RunCut(s, PlainAll(ops), k);
  }

  /** Over every careful run, a read of an lpn that was written is answered with the page whose cell
      then holds what was last put there. */
  lemma ReadsFindLastPut<D>(s: Ftl, f: Flash<D>, ops: seq<DataOp<D>>, k: nat)
    requires Consistent(s) && FlashOk(s, f) && Careful(s, PlainAll(ops)) && k < |ops| && ops[k].Get?
    ensures var replies := Run(s, PlainAll(ops)).1;
            && |replies| == |ops| && replies[k].Page?
            && var store := Apply(View(s, f), ops[..k], replies[..k]);
               var cells := RunFlash(s, f, ops[..k]).cells;
            ops[k].lpn in store ==> replies[k].page in cells && cells[replies[k].page] == store[ops[k].lpn]
  {
    ReplyAt(s, ops, k);
    PlainAt(ops, k);
    CarefulCut(s, PlainAll(ops), k);
    RunRefinesStore(s, f, ops[..k]);
    var t := Run(s, PlainAll(ops[..k])).0;
    var g := RunFlash(s, f, ops[..k]);
    var l := ops[k].lpn;
    if l in View(t, g) { FetchView(t, g, l); }
  }

  lemma FreshReadsFindLastPut<D>(cfg: Config, ops: seq<DataOp<D>>, k: nat)
    requires cfg.Valid() && Careful(Fresh(cfg), PlainAll(ops)) && k < |ops| && ops[k].Get?
    ensures var replies := Run(Fresh(cfg), PlainAll(ops)).1;
            && |replies| == |ops| && replies[k].Page?
            && var store := Apply(map[], ops[..k], replies[..k]);
               var cells := RunFlash(Fresh(cfg), Flash(map[], true), ops[..k]).cells;
            ops[k].lpn in store ==> replies[k].page in cells && cells[replies[k].page] == store[ops[k].lpn]
  {
    FreshFlash<D>(cfg);
    ReadsFindLastPut(Fresh(cfg), Flash(map[], true), ops, k);
  }
}
