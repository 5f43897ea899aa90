/** The policies of the FTL, on its raw fields: which block is collected, in which order pages are
    used, and how consecutive pages spread over the device. */
module FtlPolicy {
  import opened Common
  import opened Geometry
  import opened FtlSpec
  import opened FtlInvariants
  import opened FtlConservation
  import opened FtlCollect

  // ----- the victim

  function Count(m: map<BlockKey, int>, b: BlockKey): int {
    if b in m then m[b] else 0
  }

  /** The victim has the most invalid pages; among those the fewest erases; among those the
      smallest channel, then die, then block. */
  lemma VictimIsGreedy(s: Ftl, b: BlockKey)
    requires b in s.invalid && s.invalid[b] > 0
    ensures Candidates(s) != {}
    ensures var v := Victim(s);
            && v in s.invalid && s.invalid[v] > 0 && s.invalid[b] <= s.invalid[v]
            && (s.invalid[b] == s.invalid[v] ==> Count(s.erase, v) <= Count(s.erase, b))
            && (s.invalid[b] == s.invalid[v] && Count(s.erase, v) == Count(s.erase, b) ==>
                  || v.channel < b.channel
                  || (v.channel == b.channel && v.die < b.die)
                  || (v.channel == b.channel && v.die == b.die && v.block <= b.block))
  {
    assert b in Candidates(s);
  }

  /** What a collection of `v` that returns adds to the free pages. */
  lemma GainOf(s: Ftl, v: BlockKey)
    requires Consistent(s) && InvalidAt(s, v) > 0 && CollectVictim(s, v).result.Ok?
    ensures FreePages(CollectVictim(s, v).state) == FreePages(s) + InvalidAt(s, v) + |FreeIn(s, v)|
  {
    CollectCounts(s, v);
    CandidateInGeometry(s, v);
    BlockCensus(s, v);
  }

  /** No sealed block, collected instead of the victim, would have freed more pages. */
  lemma GreedyFreesMost(s: Ftl, b: BlockKey)
    requires Consistent(s) && InvalidAt(s, b) > 0 && Sealed(s, b) && CollectVictim(s, b).result.Ok? && Collect(s).result.Ok?
    ensures FreePages(CollectVictim(s, b).state) <= FreePages(Collect(s).state)
  {
    VictimIsGreedy(s, b);
    GainOf(s, b);
    GainOf(s, Victim(s));
    SealedNoneFree(s, b);
  }

  // ----- the order of use

  /** A write takes the page recycled longest ago, and the cursor's page only when there is none. */
  lemma WriteTakesOldest(s: Ftl, l: int)
    requires s.cfg.Valid()
    ensures var o := Write(s, l);
            if s.reclaimed != [] then
              o.result == Ok(s.reclaimed[0]) && o.state.reclaimed == s.reclaimed[1..] && o.state.next == s.next
            else if s.next < s.cfg.Capacity() then
              o.result == Ok(PhysicalFromLinear(s.cfg, s.next)) && o.state.reclaimed == [] && o.state.next == s.next + 1
            else
              o.result == Err(CapacityExhausted)
  {
  }

  lemma {:induction false} RelocateKeepsRecycled(s: Ftl, v: BlockKey, lpns: seq<int>)
    requires s.cfg.Valid()
    ensures forall p :: p in Relocate(s, v, lpns).state.reclaimed ==> p in s.reclaimed
    decreases |lpns|
  {
    if lpns != [] {
      var o := Place(s, lpns[0], Some(v));
      if o.result.Ok? { RelocateKeepsRecycled(o.state, v, lpns[1..]); }
    }
  }

  /** A collection that returns queues the victim's pages, from page 0 on, behind all others. */
  lemma CollectQueuesVictim(s: Ftl)
    requires s.cfg.Valid() && Collect(s).result.Ok?
    ensures Candidates(s) != {}
    ensures var v, r, n := Victim(s), Collect(s).state.reclaimed, s.cfg.pagesPerBlock;
            && |r| >= n
            && (forall i :: 0 <= i < n ==> r[|r| - n + i] == PhysicalPage(v.channel, v.die, v.block, i))
            && (forall i :: 0 <= i < |r| - n ==> r[i] in s.reclaimed)
  {
    var v := Victim(s);
    var live, t := SortedSet(LiveAt(s, v)), Touch(s, v);
    CollectLiveIs(t, v, live);
    RelocateKeepsRecycled(t, v, live);
    var moved := Relocate(t, v, live).state;
    QueuedBehind(moved, v);
    assert forall i :: 0 <= i < |moved.reclaimed| ==> moved.reclaimed[i] in moved.reclaimed;
  }

  lemma QueuedBehind(s: Ftl, v: BlockKey)
    requires s.cfg.Valid()
    ensures var r, n := Reclaim(s, v).reclaimed, s.cfg.pagesPerBlock;
            && |r| == |s.reclaimed| + n && r[..|s.reclaimed|] == s.reclaimed
            && (forall i :: 0 <= i < n ==> r[|r| - n + i] == PhysicalPage(v.channel, v.die, v.block, i))
  {
  }

  // ----- where a collection moves its live pages

  /** The recycled pages outside `v`, in their order. */
  function OutsidePages(q: seq<PhysicalPage>, v: BlockKey): seq<PhysicalPage> {
    if q == [] then [] else (if Key(q[0]) != v then [q[0]] else []) + OutsidePages(q[1..], v)
  }

  lemma {:induction false} OutsideConcat(a: seq<PhysicalPage>, b: seq<PhysicalPage>, v: BlockKey)
    ensures OutsidePages(a + b, v) == OutsidePages(a, v) + OutsidePages(b, v)
  {
    if a == [] {
      assert a + b == b;
    } else {
      assert (a + b)[1..] == a[1..] + b;
      OutsideConcat(a[1..], b, v);
    }
  }

  lemma {:induction false} OutsideNone(q: seq<PhysicalPage>, v: BlockKey)
    requires forall i :: 0 <= i < |q| ==> Key(q[i]) == v
    ensures OutsidePages(q, v) == []
  {
    if q != [] { OutsideNone(q[1..], v); }
  }

  /** The page that the i-th relocation out of `v` takes. */
  function Target(s: Ftl, v: BlockKey, i: nat): PhysicalPage
    requires s.cfg.Valid()
  {
    var outside := OutsidePages(s.reclaimed, v);
    if i < |outside| then outside[i] else PhysicalFromLinear(s.cfg, s.next + i - |outside|)
  }

  lemma OutsideParts(a: seq<PhysicalPage>, x: PhysicalPage, b: seq<PhysicalPage>, v: BlockKey)
    requires Key(x) != v && forall i :: 0 <= i < |a| ==> Key(a[i]) == v
    ensures OutsidePages(a + ([x] + b), v) == [x] + OutsidePages(b, v) && OutsidePages(b + a, v) == OutsidePages(b, v)
  {
    OutsideNone(a, v);
    OutsideConcat(a, [x] + b, v);
    OutsideConcat(b, a, v);
    assert ([x] + b)[1..] == b;
  }

  lemma CutAt(q: seq<PhysicalPage>, k: nat)
    requires k < |q|
    ensures q[..k] + ([q[k]] + q[k + 1..]) == q
  {
  }

  lemma RotationAt(q: seq<PhysicalPage>, k: nat, v: BlockKey)
    requires k < |q| && Key(q[k]) != v && forall i :: 0 <= i < k ==> Key(q[i]) == v
    ensures OutsidePages(q, v) == [q[k]] + OutsidePages(q[k + 1..] + q[..k], v)
  {
    CutAt(q, k);
    OutsideParts(q[..k], q[k], q[k + 1..], v);
  }

  /** Skipping the pages of `v` keeps the others in order. */
  lemma RotationKeepsOrder(q: seq<PhysicalPage>, v: BlockKey, k: nat)
    requires k == FirstOutside(q, Some(v))
    ensures k < |q| ==> OutsidePages(q, v) == [q[k]] + OutsidePages(q[k + 1..] + q[..k], v)
    ensures k == |q| ==> OutsidePages(q, v) == []
  {
    assert forall i :: 0 <= i < k ==> Key(q[i]) == v;
    if k < |q| {
      RotationAt(q, k, v);
    } else {
      OutsideNone(q, v);
    }
  }

  lemma PlaceTakesTarget(s: Ftl, l: int, v: BlockKey, i: nat)
    requires s.cfg.Valid() && Place(s, l, Some(v)).result.Ok?
    ensures var o := Place(s, l, Some(v));
            o.state.cfg == s.cfg && o.state.mapping == s.mapping[l := Target(s, v, 0)] && Target(o.state, v, i) == Target(s, v, i + 1)
  {
    RotationKeepsOrder(s.reclaimed, v, FirstOutside(s.reclaimed, Some(v)));
  }

  lemma {:induction false} RelocateOther(s: Ftl, v: BlockKey, lpns: seq<int>, l: int)
    requires s.cfg.Valid() && l in s.mapping && l !in lpns
    ensures l in Relocate(s, v, lpns).state.mapping && Relocate(s, v, lpns).state.mapping[l] == s.mapping[l]
    decreases |lpns|
  {
    if lpns != [] {
      var o := Place(s, lpns[0], Some(v));
      if o.result.Ok? { RelocateOther(o.state, v, lpns[1..], l); }
    }
  }

  lemma {:induction false} RelocateInOrder(s: Ftl, v: BlockKey, lpns: seq<int>, i: nat)
    requires s.cfg.Valid() && Relocate(s, v, lpns).result.Ok? && i < |lpns|
    requires forall j, k :: 0 <= j < k < |lpns| ==> lpns[j] < lpns[k]
    ensures lpns[i] in Relocate(s, v, lpns).state.mapping && Relocate(s, v, lpns).state.mapping[lpns[i]] == Target(s, v, i)
    decreases |lpns|
  {
    var o, rest := Place(s, lpns[0], Some(v)), lpns[1..];
    if i == 0 {
      PlaceTakesTarget(s, lpns[0], v, 0);
      assert lpns[0] !in rest;
      RelocateOther(o.state, v, rest, lpns[0]);
    } else {
      PlaceTakesTarget(s, lpns[0], v, i - 1);
      RelocateInOrder(o.state, v, rest, i - 1);
    }
  }

  lemma TouchKeepsTargets(s: Ftl, v: BlockKey, i: nat)
    requires s.cfg.Valid()
    ensures Touch(s, v).cfg == s.cfg && Target(Touch(s, v), v, i) == Target(s, v, i)
  {
  }

  lemma VictimMovesInOrder(s: Ftl, v: BlockKey, i: nat)
    requires s.cfg.Valid() && CollectVictim(s, v).result.Ok? && i < |SortedSet(LiveAt(s, v))|
    ensures var l, mapping := SortedSet(LiveAt(s, v))[i], CollectVictim(s, v).state.mapping;
            l in mapping && mapping[l] == Target(s, v, i)
  {
    var live, t := SortedSet(LiveAt(s, v)), Touch(s, v);
    TouchKeepsTargets(s, v, i);
    CollectLiveIs(t, v, live);
    RelocateInOrder(t, v, live, i);
  }

  /** A collection moves the victim's live lpns in ascending order, first to the recycled pages
      outside the victim, oldest first, and then to the cursor's pages. */
  lemma CollectMovesInOrder(s: Ftl, i: nat)
    requires s.cfg.Valid() && Collect(s).result.Ok?
    ensures Candidates(s) != {}
    ensures var live, mapping := SortedSet(LiveAt(s, Victim(s))), Collect(s).state.mapping;
            i < |live| ==> live[i] in mapping && mapping[live[i]] == Target(s, Victim(s), i)
  {
    if i < |SortedSet(LiveAt(s, Victim(s)))| { VictimMovesInOrder(s, Victim(s), i); }
  }

  // ----- striping

  lemma StripeDigits(cfg: Config, n: int)
    requires cfg.Valid()
    ensures var p := PhysicalFromLinear(cfg, n);
            && p.die * cfg.channels + p.channel == n % cfg.Dies() && p.channel == n % cfg.channels
            && p.block * cfg.pagesPerBlock + p.page == n / cfg.Dies()
  {
    var d, c := cfg.Dies(), cfg.channels;
    var stripe, q := n % d, n / d;
    assert stripe == stripe / c * c + stripe % c;
    assert n == q * d + stripe;
    assert q * d == q * cfg.diesPerChannel * c;
    assert n == (q * cfg.diesPerChannel + stripe / c) * c + stripe % c;
    DivMod(q * cfg.diesPerChannel + stripe / c, stripe % c, c);
  }

  lemma WindowApart(n: int, i: nat, j: nat, d: nat)
    requires i < j < i + d && d > 0
    ensures (n + i) % d != (n + j) % d
  {
    var k := (n + j) / d - (n + i) / d;
    assert k >= 1 ==> k * d >= d;
    assert k <= 0 ==> k * d <= 0;
    assert (n + i) % d == (n + j) % d ==> k * d == j - i;
  }

  /** As many consecutive numbers as there are dies use every die once at most, and as many as
      there are channels every channel once at most. */
  lemma Spread(cfg: Config, n: int, i: nat, j: nat)
    requires cfg.Valid() && i < j
    ensures var p, q := PhysicalFromLinear(cfg, n + i), PhysicalFromLinear(cfg, n + j);
            && (j < i + cfg.Dies() ==> p.channel != q.channel || p.die != q.die)
            && (j < i + cfg.channels ==> p.channel != q.channel)
  {
    StripeDigits(cfg, n + i);
    StripeDigits(cfg, n + j);
    if j < i + cfg.Dies() { WindowApart(n, i, j, cfg.Dies()); }
    if j < i + cfg.channels { WindowApart(n, i, j, cfg.channels); }
  }

  /** On one die, later numbers come later in the same block or in a later block. */
  lemma FillsInOrder(cfg: Config, n: int, m: int)
    requires cfg.Valid() && n < m
    ensures var p, q := PhysicalFromLinear(cfg, n), PhysicalFromLinear(cfg, m);
            p.channel == q.channel && p.die == q.die ==> p.block < q.block || (p.block == q.block && p.page < q.page)
  {
    var p, q := PhysicalFromLinear(cfg, n), PhysicalFromLinear(cfg, m);
    StripeDigits(cfg, n);
    StripeDigits(cfg, m);
    if p.channel == q.channel && p.die == q.die {
      QuotientGrows(n, m, cfg.Dies());
      BlockGrows(p.block, p.page, q.block, q.page, cfg.pagesPerBlock);
    }
  }

  lemma QuotientGrows(n: int, m: int, d: int)
    requires d > 0 && n < m && n % d == m % d
    ensures n / d < m / d
  {
    var a, b := n / d, m / d;
    assert (b - a) * d == m - n;
    assert b - a <= 0 ==> (b - a) * d <= 0;
  }

  lemma BlockGrows(a: int, i: int, b: int, j: int, n: int)
    requires 0 <= i < n && 0 <= j < n && a * n + i < b * n + j
    ensures a < b || (a == b && i < j)
  {
    assert a > b ==> a * n >= (b + 1) * n;
  }
}
