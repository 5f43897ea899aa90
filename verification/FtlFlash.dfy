/** The FTL over NAND cells: a page is programmed when it is allocated, copied when it is
    relocated and erased with its block. The source keeps no page contents; they are added here
    to say what its bookkeeping is for. */
module FtlFlash {
  import opened Common
  import opened Geometry
  import opened FtlSpec
  import opened FtlInvariants
  import opened FtlCollect
  import opened FtlRuns

  /** Programmed cells, and whether every program so far hit an erased page. */
  datatype Flash<D> = Flash(cells: map<PhysicalPage, D>, clean: bool)

  function Program<D>(f: Flash<D>, p: PhysicalPage, d: D): Flash<D> {
    Flash(f.cells[p := d], f.clean && p !in f.cells)
  }

  function EraseBlock<D>(f: Flash<D>, cfg: Config, b: BlockKey): Flash<D> {
    f.(cells := f.cells - BlockPages(cfg, b))
  }

  /** What each lpn reads; an lpn whose page is erased reads nothing. */
  function View<D>(s: Ftl, f: Flash<D>): map<int, D> {
    map l | l in s.mapping && s.mapping[l] in f.cells :: f.cells[s.mapping[l]]
  }

  ghost predicate FlashOk<D>(s: Ftl, f: Flash<D>) {
    && Core(s)
    && f.clean
    && (forall p :: p in Free(s) ==> p !in f.cells)
    && (forall l :: l in s.mapping ==> s.mapping[l] in f.cells)
  }

  lemma PlaceView<D>(s: Ftl, f: Flash<D>, lpn: int, avoid: Option<BlockKey>, d: D)
    requires FlashOk(s, f) && Place(s, lpn, avoid).result.Ok?
    ensures var o := Place(s, lpn, avoid);
            var f' := Program(f, o.result.value, d);
            FlashOk(o.state, f') && View(o.state, f') == View(s, f)[lpn := d]
  {
    PlaceCore(s, lpn, avoid);
    assert forall l :: l in s.mapping ==> s.mapping[l] in Used(s.mapping);
  }

  // ----- garbage collection with contents

  function RelocateFlash<D>(s: Ftl, f: Flash<D>, v: BlockKey, lpns: seq<int>): Flash<D>
    requires s.cfg.Valid()
    decreases |lpns|
  {
    if lpns == [] then f
    else
      var l, o := lpns[0], Place(s, lpns[0], Some(v));
      if o.result.Err? then f
      else if l in s.mapping && s.mapping[l] in f.cells then
        RelocateFlash(o.state, Program(f, o.result.value, f.cells[s.mapping[l]]), v, lpns[1..])
      else RelocateFlash(o.state, f, v, lpns[1..])
  }

  function CollectFlash<D>(s: Ftl, f: Flash<D>, v: BlockKey): Flash<D>
    requires s.cfg.Valid()
  {
    var live := SortedSet(LiveAt(s, v));
    if FreePages(s) < |live| then f
    else
      var moved := RelocateFlash(Touch(s, v), f, v, live);
      if Relocate(Touch(s, v), v, live).result.Err? then moved else EraseBlock(moved, s.cfg, v)
  }

  /** Copying changes where data lives, not what any lpn reads, whether or not it runs to the end. */
  lemma {:induction false} RelocateView<D>(s: Ftl, f: Flash<D>, v: BlockKey, lpns: seq<int>)
    requires FlashOk(s, f) && forall l :: l in lpns ==> l in s.mapping
    ensures var t, f' := Relocate(s, v, lpns).state, RelocateFlash(s, f, v, lpns);
            FlashOk(t, f') && View(t, f') == View(s, f)
    decreases |lpns|
  {
    if lpns != [] {
      var l, o := lpns[0], Place(s, lpns[0], Some(v));
      assert l in s.mapping;
      var d := f.cells[s.mapping[l]];
      if o.result.Ok? {
        PlaceView(s, f, l, Some(v), d);
        assert View(s, f)[l := d] == View(s, f);
        RelocateView(o.state, Program(f, o.result.value, d), v, lpns[1..]);
      }
    }
  }

  lemma EraseView<D>(s: Ftl, f: Flash<D>, v: BlockKey)
    requires FlashOk(s, f) && Relocating(s, v, []) && BlockInGeometry(s.cfg, v)
    ensures var s', f' := Reclaim(s, v), EraseBlock(f, s.cfg, v);
            FlashOk(s', f') && View(s', f') == View(s, f)
  {
    ReclaimFrees(s, v);
    forall l | l in s.mapping
      ensures s.mapping[l] !in BlockPages(s.cfg, v)
    {
      assert s.mapping[l] in Used(s.mapping);
      assert s.mapping[l] !in Free(Reclaim(s, v));
    }
  }

  lemma TouchFlash<D>(s: Ftl, f: Flash<D>, v: BlockKey)
    requires FlashOk(s, f)
    ensures FlashOk(Touch(s, v), f) && View(Touch(s, v), f) == View(s, f)
  {
    assert Free(Touch(s, v)) == Free(s);
  }

  lemma RelocatedView<D>(s: Ftl, f: Flash<D>, v: BlockKey)
    requires Consistent(s) && FlashOk(s, f)
    ensures var live, t := SortedSet(LiveAt(s, v)), Touch(s, v);
            var moved, g := Relocate(t, v, live).state, RelocateFlash(t, f, v, live);
            FlashOk(moved, g) && View(moved, g) == View(s, f) && moved.cfg == s.cfg
  {
    TouchFlash(s, f, v);
    LiveAreMapped(s, v);
    RelocateView(Touch(s, v), f, v, SortedSet(LiveAt(s, v)));
  }

  /** Collecting a sealed victim, or a collection that raises, changes no lpn's data and never
      programs a page twice. */
  lemma CollectView<D>(s: Ftl, f: Flash<D>, v: BlockKey)
    requires Consistent(s) && FlashOk(s, f) && InvalidAt(s, v) > 0 && (Sealed(s, v) || CollectVictim(s, v).result.Err?)
    ensures var t, f' := CollectVictim(s, v).state, CollectFlash(s, f, v);
            FlashOk(t, f') && View(t, f') == View(s, f)
  {
    var live, t := SortedSet(LiveAt(s, v)), Touch(s, v);
    TouchFlash(s, f, v);
    RelocatedView(s, f, v);
    var moved := Relocate(t, v, live);
    if FreePages(s) >= |live| && moved.result.Ok? {
      StartRelocating(s, v);
      RelocateAll(t, v, live);
      CandidateInGeometry(s, v);
      EraseView(moved.state, RelocateFlash(t, f, v, live), v);
    }
  }

  // ----- exactly when a collection loses data

  function Positive(n: int): nat {
    if n < 0 then 0 else n
  }

  /** How many pages the relocation of `n` lpns takes from the cursor. */
  ghost function Drawn(s: Ftl, v: BlockKey, n: nat): nat {
    Positive(n - OutsideCount(s.reclaimed, v))
  }

  lemma PlaceDraws(s: Ftl, v: BlockKey, lpn: int)
    requires s.cfg.Valid() && Place(s, lpn, Some(v)).result.Ok?
    ensures var o := Place(s, lpn, Some(v));
            if OutsideCount(s.reclaimed, v) > 0 then
              o.state.next == s.next && OutsideCount(o.state.reclaimed, v) == OutsideCount(s.reclaimed, v) - 1 && Key(o.result.value) != v
            else
              o.state.next == s.next + 1 && OutsideCount(o.state.reclaimed, v) == 0 && o.result.value == PhysicalFromLinear(s.cfg, s.next)
  {
    RotateOutside(s.reclaimed, FirstOutside(s.reclaimed, Some(v)), v);
    OutsideCountBounds(s.reclaimed, v);
  }

  /** Some cursor page in [lo, hi) lies in `v`. */
  ghost predicate CursorEnters(cfg: Config, v: BlockKey, lo: int, hi: int)
    requires cfg.Valid()
  {
    exists n :: lo <= n < hi && At(cfg, v, n)
  }

  predicate At(cfg: Config, v: BlockKey, n: int)
    requires cfg.Valid()
  {
    Key(PhysicalFromLinear(cfg, n)) == v
  }

  /** Some lpn of `lpns` is mapped into `v`. */
  ghost predicate Lands(m: map<int, PhysicalPage>, lpns: seq<int>, v: BlockKey) {
    exists l :: l in lpns && l in m && Key(m[l]) == v
  }

  lemma {:induction false} RelocateLands(s: Ftl, v: BlockKey, lpns: seq<int>)
    requires s.cfg.Valid() && Distinct(lpns) && Relocate(s, v, lpns).result.Ok?
    ensures var t := Relocate(s, v, lpns).state;
            && t.next == s.next + Drawn(s, v, |lpns|)
            && (forall l :: l !in lpns ==> (l in t.mapping <==> l in s.mapping) && (l in s.mapping ==> t.mapping[l] == s.mapping[l]))
            && (Lands(t.mapping, lpns, v) <==> CursorEnters(s.cfg, v, s.next, t.next))
    decreases |lpns|
  {
    if lpns != [] {
      var o := Place(s, lpns[0], Some(v));
      PlaceDraws(s, v, lpns[0]);
      RelocateLands(o.state, v, lpns[1..]);
      var t := Relocate(s, v, lpns).state;
      assert lpns[0] !in lpns[1..];
      LandsSplits(t.mapping, lpns, v);
      EntersSplits(s.cfg, v, s.next, o.state.next, t.next);
    }
  }

  lemma LandsSplits(m: map<int, PhysicalPage>, lpns: seq<int>, v: BlockKey)
    requires lpns != [] && lpns[0] in m
    ensures Lands(m, lpns, v) <==> Key(m[lpns[0]]) == v || Lands(m, lpns[1..], v)
  {
    assert lpns == [lpns[0]] + lpns[1..];
    if Key(m[lpns[0]]) == v {
      var l := lpns[0];
      assert l in lpns && l in m && Key(m[l]) == v;
    }
    if Lands(m, lpns, v) {
      var l :| l in lpns && l in m && Key(m[l]) == v;
      assert l == lpns[0] || l in lpns[1..];
    }
    if Lands(m, lpns[1..], v) {
      var l :| l in lpns[1..] && l in m && Key(m[l]) == v;
      assert l in lpns;
    }
  }

  lemma EntersSplits(cfg: Config, v: BlockKey, lo: int, mid: int, hi: int)
    requires cfg.Valid() && lo <= mid <= lo + 1 && mid <= hi
    ensures CursorEnters(cfg, v, lo, hi) <==> CursorEnters(cfg, v, mid, hi) || (mid == lo + 1 && At(cfg, v, lo))
  {
    assert mid == lo + 1 && At(cfg, v, lo) ==> CursorEnters(cfg, v, lo, hi);
  }

  /** An erase keeps what every lpn reads exactly when no lpn is mapped into the block. */
  lemma EraseKeepsIff<D>(s: Ftl, f: Flash<D>, v: BlockKey)
    requires FlashOk(s, f)
    ensures View(Reclaim(s, v), EraseBlock(f, s.cfg, v)) == View(s, f) <==> ResidentOf(s.mapping, v) == {}
  {
    var f' := EraseBlock(f, s.cfg, v);
    if ResidentOf(s.mapping, v) == {} {
      NoneUsed(s.cfg, s.mapping, v);
      assert forall l :: l in s.mapping ==> s.mapping[l] in Used(s.mapping);
    } else {
      var l := Member(ResidentOf(s.mapping, v));
      InBlockPages(s.cfg, v, s.mapping[l]);
      assert l in View(s, f) && l !in View(Reclaim(s, v), f');
    }
  }

  lemma ResidentIffLands(s: Ftl, t: Ftl, v: BlockKey, live: seq<int>)
    requires Elements(live) == ResidentOf(s.mapping, v)
    requires forall l :: l !in live ==> (l in t.mapping <==> l in s.mapping) && (l in s.mapping ==> t.mapping[l] == s.mapping[l])
    ensures ResidentOf(t.mapping, v) == {} <==> !Lands(t.mapping, live, v)
  {
    assert forall l :: l in live <==> l in Elements(live);
    if Lands(t.mapping, live, v) {
      var l :| l in live && l in t.mapping && Key(t.mapping[l]) == v;
      assert l in ResidentOf(t.mapping, v);
    }
    if ResidentOf(t.mapping, v) != {} {
      var l := Member(ResidentOf(t.mapping, v));
      assert l !in live ==> l in ResidentOf(s.mapping, v);
    }
  }

  /** From a consistent FTL, whatever its victim: a collection keeps what every lpn reads exactly
      when it raises or none of the cursor pages its relocation draws lies in the victim. It never
      programs a page that is not erased. */
  lemma CollectKeepsViewIff<D>(s: Ftl, f: Flash<D>, v: BlockKey)
    requires Consistent(s) && FlashOk(s, f) && InvalidAt(s, v) > 0
    ensures var o, f' := CollectVictim(s, v), CollectFlash(s, f, v);
            && f'.clean
            && (View(o.state, f') == View(s, f) <==>
                  o.result.Err? || !CursorEnters(s.cfg, v, s.next, s.next + Drawn(s, v, |LiveAt(s, v)|)))
  {
    if CollectVictim(s, v).result.Err? {
      CollectView(s, f, v);
    } else {
      var live, t := SortedSet(LiveAt(s, v)), Touch(s, v);
      RelocatedView(s, f, v);
      MovedIntoVictim(s, v);
      EraseKeepsIff(Relocate(t, v, live).state, RelocateFlash(t, f, v, live), v);
    }
  }

  lemma MovedIntoVictim(s: Ftl, v: BlockKey)
    requires Consistent(s) && Relocate(Touch(s, v), v, SortedSet(LiveAt(s, v))).result.Ok?
    ensures ResidentOf(Relocate(Touch(s, v), v, SortedSet(LiveAt(s, v))).state.mapping, v) == {} <==>
              !CursorEnters(s.cfg, v, s.next, s.next + Drawn(s, v, |LiveAt(s, v)|))
  {
    var live, t := SortedSet(LiveAt(s, v)), Touch(s, v);
    RelocateLands(t, v, live);
    assert BlockOk(s, v);
    assert Elements(live) == LiveAt(s, v);
    ResidentIffLands(t, Relocate(t, v, live).state, v, live);
  }

  // ----- runs

  datatype DataOp<D> = Put(lpn: int, data: D) | Get(lpn: int) | Clean

  function Plain<D>(op: DataOp<D>): Op {
    match op
    case Put(l, _) => WriteOp(l)
    case Get(l) => ReadOp(l)
    case Clean => GcOp
  }

  function PlainAll<D>(ops: seq<DataOp<D>>): (p: seq<Op>)
    ensures |p| == |ops|
  {
    if ops == [] then [] else [Plain(ops[0])] + PlainAll(ops[1..])
  }

  ghost function StepFlash<D>(s: Ftl, f: Flash<D>, op: DataOp<D>): Flash<D>
    requires s.cfg.Valid()
  {
    match op
    case Put(l, d) => (var o := Write(s, l); if o.result.Ok? then Program(f, o.result.value, d) else f)
    case Get(_) => f
    case Clean => if Candidates(s) == {} then f else CollectFlash(s, f, Victim(s))
  }

  /** The cells after `ops`. */
  ghost function RunFlash<D>(s: Ftl, f: Flash<D>, ops: seq<DataOp<D>>): Flash<D>
    requires s.cfg.Valid()
    decreases |ops|
  {
    if ops == [] then f
    else
      StepKeepsConfig(s, Plain(ops[0]));
      RunFlash(Step(s, Plain(ops[0])).0, StepFlash(s, f, ops[0]), ops[1..])
  }

  function ApplyOne<D>(store: map<int, D>, op: DataOp<D>, reply: Reply): map<int, D> {
    if op.Put? && reply.Page? then store[op.lpn := op.data] else store
  }

  /** The store the FTL stands for: the writes that returned, in order. */
  function Apply<D>(store: map<int, D>, ops: seq<DataOp<D>>, replies: seq<Reply>): map<int, D>
    requires |replies| == |ops|
    decreases |ops|
  {
    if ops == [] then store
    else Apply(ApplyOne(store, ops[0], replies[0]), ops[1..], replies[1..])
  }

  lemma PutView<D>(s: Ftl, f: Flash<D>, l: int, d: D)
    requires Consistent(s) && FlashOk(s, f) && CarefulStep(s, WriteOp(l))
    ensures var (s', reply) := Step(s, WriteOp(l));
            var f' := StepFlash(s, f, Put(l, d));
            FlashOk(s', f') && View(s', f') == ApplyOne(View(s, f), Put(l, d), reply)
  {
    WriteKeepsConsistent(s, l);
    var i := Invalidate(s, l);
    assert Free(i) == Free(s) && View(i, f) == View(s, f);
    if Write(s, l).result.Ok? {
      PlaceView(i, f, l, None, d);
    }
  }

  lemma CleanView<D>(s: Ftl, f: Flash<D>)
    requires Consistent(s) && FlashOk(s, f) && CarefulStep(s, GcOp)
    ensures var s', f' := Step(s, GcOp).0, StepFlash(s, f, Clean);
            FlashOk(s', f') && View(s', f') == View(s, f)
  {
    if Candidates(s) != {} {
      SafeReturnsSealed(s);
      CollectView(s, f, Victim(s));
    }
  }

  /** A safe victim that is collected is sealed. */
  lemma SafeReturnsSealed(s: Ftl)
    requires Consistent(s) && Candidates(s) != {} && SafeVictim(s, Victim(s))
    ensures Sealed(s, Victim(s)) || Collect(s).result.Err?
  {
    CollectConsistentIffSafe(s);
    if Collect(s).result.Ok? { CollectKeepsConsistentIffSealed(s); }
  }

  lemma StepView<D>(s: Ftl, f: Flash<D>, op: DataOp<D>)
    requires Consistent(s) && FlashOk(s, f) && CarefulStep(s, Plain(op))
    ensures var (s', reply) := Step(s, Plain(op));
            var f' := StepFlash(s, f, op);
            Consistent(s') && FlashOk(s', f') && View(s', f') == ApplyOne(View(s, f), op, reply)
  {
    StepConsistentIffCareful(s, Plain(op));
    match op
    case Put(l, d) => PutView(s, f, l, d);
    case Get(_) =>
    case Clean => CleanView(s, f);
  }

  lemma {:induction false} RunReplies(s: Ftl, ops: seq<Op>)
    requires s.cfg.Valid()
    ensures |Run(s, ops).1| == |ops|
    decreases |ops|
  {
    if ops != [] {
      StepKeepsConfig(s, ops[0]);
      RunReplies(Step(s, ops[0]).0, ops[1..]);
    }
  }

  /** Over every careful run the FTL refines a plain lpn-to-data map: every lpn reads what was
      last put there, and no page is programmed twice without an erase of its block in between. */
  lemma {:induction false} RunRefinesStore<D>(s: Ftl, f: Flash<D>, ops: seq<DataOp<D>>)
    requires Consistent(s) && FlashOk(s, f) && Careful(s, PlainAll(ops))
    ensures var (t, replies) := Run(s, PlainAll(ops));
            var g := RunFlash(s, f, ops);
            |replies| == |ops| && FlashOk(t, g) && View(t, g) == Apply(View(s, f), ops, replies)
    decreases |ops|
  {
    RunReplies(s, PlainAll(ops));
    if ops != [] {
      var s', f' := Step(s, Plain(ops[0])).0, StepFlash(s, f, ops[0]);
      assert PlainAll(ops)[1..] == PlainAll(ops[1..]);
      StepView(s, f, ops[0]);
      RunRefinesStore(s', f', ops[1..]);
      assert Run(s, PlainAll(ops)).1[1..] == Run(s', PlainAll(ops[1..])).1;
    }
  }

  lemma FreshRefinesStore<D>(cfg: Config, ops: seq<DataOp<D>>)
    requires cfg.Valid() && Careful(Fresh(cfg), PlainAll(ops))
    ensures var (t, replies) := Run(Fresh(cfg), PlainAll(ops));
            var g := RunFlash(Fresh(cfg), Flash(map[], true), ops);
            |replies| == |ops| && FlashOk(t, g) && View(t, g) == Apply(map[], ops, replies)
  {
    FreshFlash<D>(cfg);
    RunRefinesStore(Fresh(cfg), Flash(map[], true), ops);
  }

  lemma FreshFlash<D>(cfg: Config)
    requires cfg.Valid()
    ensures var f: Flash<D> := Flash(map[], true);
            Consistent(Fresh(cfg)) && FlashOk(Fresh(cfg), f) && View(Fresh(cfg), f) == map[]
  {
    FreshConsistent(cfg);
    var f: Flash<D> := Flash(map[], true);
    assert View(Fresh(cfg), f) == map[];
  }
}
