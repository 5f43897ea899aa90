/** What every run of the FTL keeps: the mapping, the reverse index, the free pages and the
    invalid counts agree, and garbage collection keeps them exactly when its victim is sealed. */
module FtlInvariants {
  import opened Common
  import opened Geometry
  import opened FtlSpec

  // ----- sets of pages under one remapping

  ghost predicate Injective(m: map<int, PhysicalPage>) {
    forall k, l :: k in m && l in m && k != l ==> m[k] != m[l]
  }

  /** The pages `m` maps to. */
  ghost function Used(m: map<int, PhysicalPage>): set<PhysicalPage> {
    set l | l in m :: m[l]
  }

  /** The lpns that `m` keeps in block `b`. */
  ghost function ResidentOf(m: map<int, PhysicalPage>, b: BlockKey): set<int> {
    set l | l in m && Key(m[l]) == b
  }

  /** The pages that hold neither live data nor free space. */
  ghost function DeadOf(pages: set<PhysicalPage>, free: set<PhysicalPage>, m: map<int, PhysicalPage>): set<PhysicalPage> {
    set p | p in pages && p !in free && p !in Used(m)
  }

  /** The page an update of `lpn` leaves behind, if it lies in `pages`. */
  ghost function Vacated(pages: set<PhysicalPage>, m: map<int, PhysicalPage>, lpn: int): set<PhysicalPage> {
    if lpn in m && m[lpn] in pages then {m[lpn]} else {}
  }

  lemma UpdateValues(m: map<int, PhysicalPage>, lpn: int, p: PhysicalPage)
    requires Injective(m)
    ensures forall q :: q in Used(m[lpn := p]) <==> q == p || (q in Used(m) && !(lpn in m && q == m[lpn]))
  {
    var m' := m[lpn := p];
    assert m'[lpn] == p;
    forall q | q in Used(m) && !(lpn in m && q == m[lpn])
      ensures q in Used(m')
    {
      var l :| l in m && m[l] == q;
      assert m'[l] == q;
    }
  }

  lemma UpdateResident(m: map<int, PhysicalPage>, lpn: int, p: PhysicalPage, b: BlockKey)
    ensures ResidentOf(m[lpn := p], b) == ResidentOf(m, b) - {lpn} + (if Key(p) == b then {lpn} else {})
  {
  }

  lemma UpdateUsed(free: set<PhysicalPage>, m: map<int, PhysicalPage>, lpn: int, p: PhysicalPage)
    requires Injective(m) && p in free && Used(m) !! free
    ensures Injective(m[lpn := p]) && Used(m[lpn := p]) !! (free - {p})
  {
    UpdateValues(m, lpn, p);
    assert forall l :: l in m ==> m[l] in Used(m);
  }

  lemma UpdateDead(pages: set<PhysicalPage>, free: set<PhysicalPage>, m: map<int, PhysicalPage>, lpn: int, p: PhysicalPage)
    requires Injective(m) && p in free && Used(m) !! free
    ensures |DeadOf(pages, free - {p}, m[lpn := p])| == |DeadOf(pages, free, m)| + |Vacated(pages, m, lpn)|
  {
    UpdateValues(m, lpn, p);
    var before, gone := DeadOf(pages, free, m), Vacated(pages, m, lpn);
    assert lpn in m ==> m[lpn] in Used(m);
    assert before !! gone;
    assert DeadOf(pages, free - {p}, m[lpn := p]) == before + gone;
  }

  // ----- the invariant

  /** The pages the cursor has not reached. */
  ghost function Ahead(s: Ftl): set<PhysicalPage>
    requires s.cfg.Valid() && 0 <= s.next <= s.cfg.Capacity()
  {
    LinearRange(s.cfg, s.next, s.cfg.Capacity())
  }

  /** The pages the allocator may still hand out. */
  ghost function Free(s: Ftl): set<PhysicalPage>
    requires s.cfg.Valid() && 0 <= s.next <= s.cfg.Capacity()
  {
    Elements(s.reclaimed) + Ahead(s)
  }

  ghost predicate AllocatorOk(s: Ftl) {
    && s.cfg.Valid()
    && 0 <= s.next <= s.cfg.Capacity()
    && Distinct(s.reclaimed)
    && Elements(s.reclaimed) !! Ahead(s)
    && forall p :: p in s.reclaimed ==> InGeometry(s.cfg, p)
  }

  ghost predicate Core(s: Ftl) {
    && AllocatorOk(s)
    && Injective(s.mapping)
    && Used(s.mapping) !! Free(s)
    && forall l :: l in s.mapping ==> InGeometry(s.cfg, s.mapping[l])
  }

  ghost function PagesOf(cfg: Config, b: BlockKey): set<PhysicalPage> {
    if BlockInGeometry(cfg, b) then BlockPages(cfg, b) else {}
  }

  ghost function Dead(s: Ftl, b: BlockKey): set<PhysicalPage>
    requires Core(s)
  {
    DeadOf(PagesOf(s.cfg, b), Free(s), s.mapping)
  }

  /** The reverse index and the invalid count of `b` are exact. */
  ghost predicate BlockOk(s: Ftl, b: BlockKey)
    requires Core(s)
  {
    LiveAt(s, b) == ResidentOf(s.mapping, b) && InvalidAt(s, b) == |Dead(s, b)|
  }

  ghost predicate Consistent(s: Ftl) {
    Core(s) && forall b :: BlockOk(s, b)
  }

  /** No page of `b` can be handed out any more. */
  ghost predicate Sealed(s: Ftl, b: BlockKey)
    requires AllocatorOk(s)
  {
    Free(s) !! BlockPages(s.cfg, b)
  }

  // ----- allocation

  lemma RotateOut(r: seq<PhysicalPage>, k: nat)
    requires Distinct(r) && k < |r|
    ensures var r' := r[k + 1..] + r[..k]; Distinct(r') && Elements(r') == Elements(r) - {r[k]}
  {
    var r' := r[k + 1..] + r[..k];
    forall q | q in r && q != r[k]
      ensures q in r'
    {
      var i :| 0 <= i < |r| && r[i] == q;
      assert r'[if i > k then i - k - 1 else i + (|r| - k - 1)] == q;
    }
  }

  lemma AheadShrinks(s: Ftl)
    requires s.cfg.Valid() && 0 <= s.next < s.cfg.Capacity()
    ensures var p := PhysicalFromLinear(s.cfg, s.next);
            && InGeometry(s.cfg, p) && p in Ahead(s)
            && Ahead(s.(next := s.next + 1)) == Ahead(s) - {p}
  {
    var cfg, n, top := s.cfg, s.next, s.cfg.Capacity();
    LinearToPage(cfg, n);
    LinearRangeCount(cfg, n, top);
    LinearRangeCount(cfg, n + 1, top);
    forall q | InGeometry(cfg, q) && Linear(cfg, q) == n
      ensures q == PhysicalFromLinear(cfg, n)
    {
      PageToLinear(cfg, q);
    }
  }

  /** Allocation takes exactly one page out of the free set. */
  lemma AllocateTakesOne(s: Ftl, avoid: Option<BlockKey>)
    requires AllocatorOk(s) && Allocate(s, avoid).result.Ok?
    ensures var o := Allocate(s, avoid);
            && AllocatorOk(o.state)
            && InGeometry(s.cfg, o.result.value) && o.result.value in Free(s)
            && Free(o.state) == Free(s) - {o.result.value}
            && FreePages(o.state) == FreePages(s) - 1
  {
    var k := FirstOutside(s.reclaimed, avoid);
    if k < |s.reclaimed| {
      RotateOut(s.reclaimed, k);
    } else {
      AheadShrinks(s);
    }
  }

  /** What placing `lpn` on `p` does to the sets and counts of block `b`. */
  ghost predicate PlacedIn(s: Ftl, s': Ftl, lpn: int, p: PhysicalPage, b: BlockKey)
    requires Core(s) && Core(s')
  {
    && ResidentOf(s'.mapping, b) == ResidentOf(s.mapping, b) - {lpn} + (if Key(p) == b then {lpn} else {})
    && |Dead(s', b)| == |Dead(s, b)| + |Vacated(PagesOf(s.cfg, b), s.mapping, lpn)|
    && LiveAt(s', b) == LiveAt(s, b) + (if Key(p) == b then {lpn} else {})
    && InvalidAt(s', b) == InvalidAt(s, b)
  }

  lemma PlaceCore(s: Ftl, lpn: int, avoid: Option<BlockKey>)
    requires Core(s) && Place(s, lpn, avoid).result.Ok?
    ensures var o := Place(s, lpn, avoid);
            && Core(o.state)
            && InGeometry(s.cfg, o.result.value) && o.result.value in Free(s)
            && Free(o.state) == Free(s) - {o.result.value}
            && FreePages(o.state) == FreePages(s) - 1
            && o.state.mapping == s.mapping[lpn := o.result.value]
  {
    AllocateTakesOne(s, avoid);
    UpdateUsed(Free(s), s.mapping, lpn, Allocate(s, avoid).result.value);
  }

  lemma PlaceIndex(s: Ftl, lpn: int, avoid: Option<BlockKey>, b: BlockKey)
    requires s.cfg.Valid() && Place(s, lpn, avoid).result.Ok?
    ensures var o := Place(s, lpn, avoid);
            && LiveAt(o.state, b) == LiveAt(s, b) + (if Key(o.result.value) == b then {lpn} else {})
            && InvalidAt(o.state, b) == InvalidAt(s, b)
  {
  }

  lemma PlaceDead(s: Ftl, lpn: int, avoid: Option<BlockKey>, b: BlockKey)
    requires Core(s) && Place(s, lpn, avoid).result.Ok?
    ensures Core(Place(s, lpn, avoid).state)
    ensures |Dead(Place(s, lpn, avoid).state, b)| == |Dead(s, b)| + |Vacated(PagesOf(s.cfg, b), s.mapping, lpn)|
  {
    PlaceCore(s, lpn, avoid);
    UpdateDead(PagesOf(s.cfg, b), Free(s), s.mapping, lpn, Place(s, lpn, avoid).result.value);
  }

  /** Placing an lpn moves it to a page that was free, and what it leaves behind is dead. */
  lemma PlaceMoves(s: Ftl, s': Ftl, lpn: int, avoid: Option<BlockKey>, p: PhysicalPage, b: BlockKey)
    requires Core(s) && Place(s, lpn, avoid) == Outcome(s', Ok(p))
    ensures Core(s') && PlacedIn(s, s', lpn, p, b)
  {
    PlaceDead(s, lpn, avoid, b);
    PlaceIndex(s, lpn, avoid, b);
    PlaceCore(s, lpn, avoid);
    UpdateResident(s.mapping, lpn, p, b);
  }

  // ----- writes

  lemma VacatedBlock(s: Ftl, lpn: int, b: BlockKey)
    requires Core(s)
    ensures |Vacated(PagesOf(s.cfg, b), s.mapping, lpn)| == if lpn in s.mapping && Key(s.mapping[lpn]) == b then 1 else 0
  {
    if lpn in s.mapping {
      InBlockPages(s.cfg, b, s.mapping[lpn]);
    }
  }

  lemma SameDead(s: Ftl, t: Ftl, b: BlockKey)
    requires Core(s) && t.cfg == s.cfg && t.mapping == s.mapping && t.next == s.next && t.reclaimed == s.reclaimed
    ensures Core(t) && Dead(t, b) == Dead(s, b)
  {
    assert Free(t) == Free(s);
  }

  lemma InvalidateBlock(s: Ftl, lpn: int, b: BlockKey)
    requires LiveAt(s, b) == ResidentOf(s.mapping, b)
    ensures var i := Invalidate(s, lpn);
            && LiveAt(i, b) == ResidentOf(s.mapping, b) - {lpn}
            && InvalidAt(i, b) == InvalidAt(s, b) + (if lpn in s.mapping && Key(s.mapping[lpn]) == b then 1 else 0)
  {
    if lpn !in s.mapping || Key(s.mapping[lpn]) != b {
      assert lpn !in ResidentOf(s.mapping, b);
    }
  }

  lemma WriteBlock(s: Ftl, lpn: int, b: BlockKey)
    requires Consistent(s) && Write(s, lpn).result.Ok?
    ensures Core(Write(s, lpn).state) && BlockOk(Write(s, lpn).state, b)
  {
    var i, o := Invalidate(s, lpn), Write(s, lpn);
    assert BlockOk(s, b);
    SameDead(s, i, b);
    InvalidateBlock(s, lpn, b);
    PlaceMoves(i, o.state, lpn, None, o.result.value, b);
    VacatedBlock(i, lpn, b);
  }

  /** A write returns exactly when a page is free. If it returns, the state stays consistent and
      one page was consumed; if it raises, the old copy of a mapped lpn has already been counted
      as invalid although it is still mapped, so consistency survives only for an unmapped lpn. */
  lemma WriteKeepsConsistent(s: Ftl, lpn: int)
    requires Consistent(s)
    ensures var o := Write(s, lpn);
            && (o.result.Ok? <==> FreePages(s) > 0)
            && (Consistent(o.state) <==> o.result.Ok? || lpn !in s.mapping)
            && FreePages(o.state) == FreePages(s) - (if o.result.Ok? then 1 else 0)
            && (o.result.Ok? ==> o.state.mapping == s.mapping[lpn := o.result.value])
  {
    var o, i := Write(s, lpn), Invalidate(s, lpn);
    if o.result.Ok? {
      PlaceCore(i, lpn, None);
      forall b ensures BlockOk(o.state, b) { WriteBlock(s, lpn, b); }
    } else if lpn in s.mapping {
      var b := Key(s.mapping[lpn]);
      assert lpn in ResidentOf(o.state.mapping, b) && lpn !in LiveAt(o.state, b);
      assert Core(o.state) && !BlockOk(o.state, b);
    } else {
      assert o.state == s;
    }
  }

  // ----- relocation

  /** Pages a relocation can use: the cursor's, plus the recycled ones outside the victim. */
  ghost function Usable(s: Ftl, v: BlockKey): int {
    s.cfg.Capacity() - s.next + OutsideCount(s.reclaimed, v)
  }

  ghost function OutsideCount(q: seq<PhysicalPage>, v: BlockKey): nat {
    if q == [] then 0 else (if Key(q[0]) != v then 1 else 0) + OutsideCount(q[1..], v)
  }

  lemma {:induction false} OutsideCountConcat(a: seq<PhysicalPage>, b: seq<PhysicalPage>, v: BlockKey)
    ensures OutsideCount(a + b, v) == OutsideCount(a, v) + OutsideCount(b, v)
  {
    if a == [] {
      assert a + b == b;
    } else {
      assert (a + b)[1..] == a[1..] + b;
      OutsideCountConcat(a[1..], b, v);
    }
  }

  lemma {:induction false} OutsideCountBounds(q: seq<PhysicalPage>, v: BlockKey)
    ensures OutsideCount(q, v) <= |q|
    ensures (forall p :: p in q ==> Key(p) != v) ==> OutsideCount(q, v) == |q|
    ensures (forall p :: p in q ==> Key(p) == v) ==> OutsideCount(q, v) == 0
  {
    if q != [] {
      assert q == [q[0]] + q[1..];
      OutsideCountBounds(q[1..], v);
    }
  }

  lemma RotateOutside(q: seq<PhysicalPage>, k: nat, v: BlockKey)
    requires k <= |q| && (forall i :: 0 <= i < k ==> Key(q[i]) == v) && (k < |q| ==> Key(q[k]) != v)
    ensures if k < |q| then OutsideCount(q[k + 1..] + q[..k], v) == OutsideCount(q, v) - 1
            else OutsideCount(q, v) == 0
  {
    var skipped := q[..k];
    OutsideCountBounds(skipped, v);
    if k < |q| {
      var rest := q[k + 1..];
      assert q == skipped + ([q[k]] + rest);
      OutsideCountConcat(skipped, [q[k]] + rest, v);
      OutsideCountConcat([q[k]], rest, v);
      OutsideCountConcat(rest, skipped, v);
    } else {
      assert skipped == q;
    }
  }

  lemma PlaceUses(s: Ftl, v: BlockKey, lpn: int)
    requires s.cfg.Valid() && s.next <= s.cfg.Capacity()
    ensures var o := Place(s, lpn, Some(v));
            && (o.result.Ok? <==> Usable(s, v) > 0)
            && (o.result.Ok? ==> Usable(o.state, v) == Usable(s, v) - 1 && FreePages(o.state) == FreePages(s) - 1)
            && o.state.cfg == s.cfg && o.state.next <= s.cfg.Capacity()
            && o.state.invalid == s.invalid && o.state.erase == s.erase
  {
    RotateOutside(s.reclaimed, FirstOutside(s.reclaimed, Some(v)), v);
  }

  /** From any state whatever, relocating `lpns` succeeds exactly when enough usable pages exist. */
  lemma {:induction false} RelocateSucceeds(s: Ftl, v: BlockKey, lpns: seq<int>)
    requires s.cfg.Valid() && s.next <= s.cfg.Capacity()
    ensures var o := Relocate(s, v, lpns);
            && (o.result.Ok? <==> |lpns| <= Usable(s, v))
            && (o.result.Ok? ==> FreePages(o.state) == FreePages(s) - |lpns|)
            && o.state.invalid == s.invalid && o.state.erase == s.erase
    decreases |lpns|
  {
    if lpns != [] {
      PlaceUses(s, v, lpns[0]);
      var o := Place(s, lpns[0], Some(v));
      if o.result.Ok? {
        RelocateSucceeds(o.state, v, lpns[1..]);
      }
    }
  }

  /** Invariant of the relocation loop: everything but the victim's own bookkeeping is exact. */
  ghost predicate Relocating(s: Ftl, v: BlockKey, lpns: seq<int>) {
    && Core(s)
    && Sealed(s, v)
    && Distinct(lpns)
    && Elements(lpns) == ResidentOf(s.mapping, v)
    && forall b :: b != v ==> BlockOk(s, b)
  }

  lemma RelocateBlock(s: Ftl, v: BlockKey, lpns: seq<int>, b: BlockKey)
    requires Relocating(s, v, lpns) && lpns != [] && b != v
    requires Place(s, lpns[0], Some(v)).result.Ok?
    ensures Core(Place(s, lpns[0], Some(v)).state) && BlockOk(Place(s, lpns[0], Some(v)).state, b)
  {
    assert lpns[0] in Elements(lpns);
    var o := Place(s, lpns[0], Some(v));
    PlaceMoves(s, o.state, lpns[0], Some(v), o.result.value, b);
    VacatedBlock(s, lpns[0], b);
    assert BlockOk(s, b);
  }

  lemma RelocateOne(s: Ftl, v: BlockKey, lpns: seq<int>)
    requires Relocating(s, v, lpns) && lpns != []
    requires Place(s, lpns[0], Some(v)).result.Ok?
    ensures var s' := Place(s, lpns[0], Some(v)).state;
            Relocating(s', v, lpns[1..]) && s'.mapping.Keys == s.mapping.Keys
  {
    var l, o := lpns[0], Place(s, lpns[0], Some(v));
    PlaceCore(s, l, Some(v));
    assert l in Elements(lpns);
    InBlockPages(s.cfg, v, o.result.value);
    assert Key(o.result.value) != v;
    forall b | b != v ensures BlockOk(o.state, b) { RelocateBlock(s, v, lpns, b); }
    UpdateResident(s.mapping, l, o.result.value, v);
    assert lpns == [l] + lpns[1..];
    assert Elements(lpns[1..]) == Elements(lpns) - {l};
  }

  lemma {:induction false} RelocateAll(s: Ftl, v: BlockKey, lpns: seq<int>)
    requires Relocating(s, v, lpns)
    ensures var o := Relocate(s, v, lpns);
            o.result.Ok? ==> Relocating(o.state, v, []) && o.state.mapping.Keys == s.mapping.Keys
    decreases |lpns|
  {
    if lpns != [] {
      var o := Place(s, lpns[0], Some(v));
      if o.result.Ok? {
        RelocateOne(s, v, lpns);
        RelocateAll(o.state, v, lpns[1..]);
      }
    }
  }

  // ----- erase

  lemma BlockPageSeqElements(cfg: Config, b: BlockKey)
    requires cfg.Valid()
    ensures Distinct(BlockPageSeq(cfg, b)) && Elements(BlockPageSeq(cfg, b)) == BlockPages(cfg, b)
  {
    var all := BlockPageSeq(cfg, b);
    forall p | p in BlockPages(cfg, b)
      ensures p in all
    {
      assert all[p.page] == p;
    }
  }

  /** Recycling a block none of whose pages is free. */
  lemma ReclaimAllocator(s: Ftl, v: BlockKey)
    requires AllocatorOk(s) && BlockInGeometry(s.cfg, v) && Free(s) !! BlockPages(s.cfg, v)
    ensures var s' := Reclaim(s, v); AllocatorOk(s') && Free(s') == Free(s) + BlockPages(s.cfg, v)
  {
    BlockPageSeqElements(s.cfg, v);
    ConcatDistinct(s.reclaimed, BlockPageSeq(s.cfg, v));
    var s' := Reclaim(s, v);
    assert Ahead(s') == Ahead(s);
    forall p | p in s'.reclaimed
      ensures InGeometry(s.cfg, p)
    {
      if p in BlockPages(s.cfg, v) { InBlockPages(s.cfg, v, p); } else { assert p in Elements(s.reclaimed); }
    }
  }

  /** A block without residents holds no used page. */
  lemma NoneUsed(cfg: Config, m: map<int, PhysicalPage>, v: BlockKey)
    requires ResidentOf(m, v) == {}
    ensures Used(m) !! BlockPages(cfg, v)
  {
    forall l | l in m
      ensures m[l] !in BlockPages(cfg, v)
    {
      assert l !in ResidentOf(m, v);
      InBlockPages(cfg, v, m[l]);
    }
  }

  lemma ReclaimFrees(s: Ftl, v: BlockKey)
    requires Relocating(s, v, []) && BlockInGeometry(s.cfg, v)
    ensures var s' := Reclaim(s, v); Core(s') && Free(s') == Free(s) + BlockPages(s.cfg, v)
  {
    assert ResidentOf(s.mapping, v) == {};
    NoneUsed(s.cfg, s.mapping, v);
    ReclaimAllocator(s, v);
  }

  lemma NoResidents(s: Ftl, v: BlockKey)
    requires s.cfg.Valid() && Elements([]) == ResidentOf(s.mapping, v)
    ensures LiveAt(Reclaim(s, v), v) == ResidentOf(s.mapping, v)
  {
  }

  lemma ReclaimVictim(s: Ftl, v: BlockKey)
    requires Relocating(s, v, []) && BlockInGeometry(s.cfg, v)
    ensures Core(Reclaim(s, v)) && BlockOk(Reclaim(s, v), v)
  {
    ReclaimFrees(s, v);
    NoResidents(s, v);
    NoneDead(BlockPages(s.cfg, v), Free(s), s.mapping);
  }

  lemma NoneDead(pages: set<PhysicalPage>, free: set<PhysicalPage>, m: map<int, PhysicalPage>)
    ensures DeadOf(pages, free + pages, m) == {}
  {
  }

  lemma ReclaimOther(s: Ftl, v: BlockKey, b: BlockKey)
    requires Relocating(s, v, []) && BlockInGeometry(s.cfg, v) && b != v
    ensures Core(Reclaim(s, v)) && BlockOk(Reclaim(s, v), b)
  {
    ReclaimFrees(s, v);
    assert BlockOk(s, b);
    DeadElsewhere(PagesOf(s.cfg, b), Free(s), BlockPages(s.cfg, v), s.mapping);
  }

  lemma DeadElsewhere(pages: set<PhysicalPage>, free: set<PhysicalPage>, more: set<PhysicalPage>, m: map<int, PhysicalPage>)
    requires pages !! more
    ensures DeadOf(pages, free + more, m) == DeadOf(pages, free, m)
  {
  }

  lemma ReclaimConsistent(s: Ftl, v: BlockKey)
    requires Relocating(s, v, []) && BlockInGeometry(s.cfg, v)
    ensures Consistent(Reclaim(s, v))
  {
    ReclaimFrees(s, v);
    forall b ensures BlockOk(Reclaim(s, v), b) {
      if b == v { ReclaimVictim(s, v); } else { ReclaimOther(s, v, b); }
    }
  }
}
