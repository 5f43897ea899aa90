/** The page-mapped FTL of src/openflash/ftl.py as a value and its operations as functions.
    A dictionary is a map, a defaultdict lookup a lookup with a default, the deque of recycled
    pages a sequence with its left end first, and a raised OutOfSpaceError an Err outcome whose
    state holds whatever the operation had already changed. */
module FtlSpec {
  import opened Common
  import opened Geometry

  datatype FtlError = NoReclaimableBlock | InsufficientWorkspace | CapacityExhausted

  datatype GcResult = GcResult(victim: BlockKey, pagesMoved: nat, pagesReclaimed: int, eraseCount: int)

  datatype Ftl = Ftl(cfg: Config,
                     mapping: map<int, PhysicalPage>,
                     invalid: map<BlockKey, int>,
                     valid: map<BlockKey, set<int>>,
                     erase: map<BlockKey, int>,
                     next: int,
                     reclaimed: seq<PhysicalPage>)

  datatype Outcome<+T> = Outcome(state: Ftl, result: Result<T, FtlError>)

  function Fresh(cfg: Config): Ftl {
    Ftl(cfg, map[], map[], map[], map[], 0, [])
  }

  function InvalidAt(s: Ftl, b: BlockKey): int {
    if b in s.invalid then s.invalid[b] else 0
  }

  function LiveAt(s: Ftl, b: BlockKey): set<int> {
    if b in s.valid then s.valid[b] else {}
  }

  function EraseAt(s: Ftl, b: BlockKey): int {
    if b in s.erase then s.erase[b] else 0
  }

  function FreePages(s: Ftl): int {
    s.cfg.Capacity() - s.next + |s.reclaimed|
  }

  predicate NeedsGc(s: Ftl) {
    FreePages(s) <= s.cfg.gcLowWatermarkBlocks * s.cfg.pagesPerBlock && |s.invalid| > 0
  }

  /** Where a read goes: the mapped page, or a fixed page of the geometry for an unwritten lpn. */
  function MapRead(s: Ftl, lpn: int): PhysicalPage
    requires s.cfg.Valid()
  {
    if lpn in s.mapping then s.mapping[lpn]
    else
      var stripe := lpn % s.cfg.Dies();
      assert s.cfg.Dies() * s.cfg.blocksPerDie > 0;
      PhysicalPage(stripe % s.cfg.channels, stripe / s.cfg.channels,
                   (lpn / s.cfg.Dies()) % s.cfg.blocksPerDie,
                   (lpn / (s.cfg.Dies() * s.cfg.blocksPerDie)) % s.cfg.pagesPerBlock)
  }

  // ----- allocation

  predicate Outside(p: PhysicalPage, avoid: Option<BlockKey>) {
    avoid != Some(Key(p))
  }

  /** Index of the first recycled page outside `avoid`, or the length if there is none. */
  function FirstOutside(q: seq<PhysicalPage>, avoid: Option<BlockKey>): (k: nat)
    ensures k <= |q|
    ensures forall i :: 0 <= i < k ==> !Outside(q[i], avoid)
    ensures k < |q| ==> Outside(q[k], avoid)
  {
    if q == [] || Outside(q[0], avoid) then 0 else 1 + FirstOutside(q[1..], avoid)
  }

  /** Pages skipped because they belong to `avoid` are rotated to the right end of the deque. */
  function Allocate(s: Ftl, avoid: Option<BlockKey>): Outcome<PhysicalPage>
    requires s.cfg.Valid()
  {
    var k := FirstOutside(s.reclaimed, avoid);
    if k < |s.reclaimed| then
      Outcome(s.(reclaimed := s.reclaimed[k + 1..] + s.reclaimed[..k]), Ok(s.reclaimed[k]))
    else if s.next >= s.cfg.Capacity() then
      Outcome(s, Err(CapacityExhausted))
    else
      Outcome(s.(next := s.next + 1), Ok(PhysicalFromLinear(s.cfg, s.next)))
  }

  /** Allocate a page and point `lpn` at it. */
  function Place(s: Ftl, lpn: int, avoid: Option<BlockKey>): Outcome<PhysicalPage>
    requires s.cfg.Valid()
  {
    var o := Allocate(s, avoid);
    if o.result.Err? then o
    else
      var p := o.result.value;
      Outcome(o.state.(mapping := o.state.mapping[lpn := p],
                       valid := o.state.valid[Key(p) := LiveAt(o.state, Key(p)) + {lpn}]), o.result)
  }

  /** First half of a write: the old copy, if any, is counted as invalid. */
  function Invalidate(s: Ftl, lpn: int): Ftl {
    if lpn !in s.mapping then s
    else
      var b := Key(s.mapping[lpn]);
      s.(valid := s.valid[b := LiveAt(s, b) - {lpn}], invalid := s.invalid[b := InvalidAt(s, b) + 1])
  }

  function Write(s: Ftl, lpn: int): Outcome<PhysicalPage>
    requires s.cfg.Valid()
  {
    Place(Invalidate(s, lpn), lpn, None)
  }

  // ----- garbage collection

  function Candidates(s: Ftl): set<BlockKey> {
    set b | b in s.invalid && s.invalid[b] > 0
  }

  predicate BlockLess(a: BlockKey, b: BlockKey) {
    a.channel < b.channel ||
    (a.channel == b.channel && (a.die < b.die || (a.die == b.die && a.block < b.block)))
  }

  /** `a` has a larger victim key than `b`: more invalid pages, then fewer erases, then a
      lexicographically smaller block. */
  predicate Prefer(s: Ftl, a: BlockKey, b: BlockKey) {
    InvalidAt(s, a) > InvalidAt(s, b) ||
    (InvalidAt(s, a) == InvalidAt(s, b) &&
     (EraseAt(s, a) < EraseAt(s, b) || (EraseAt(s, a) == EraseAt(s, b) && BlockLess(a, b))))
  }

  ghost predicate IsBestOf(s: Ftl, v: BlockKey, among: set<BlockKey>) {
    v in among && forall b :: b in among && b != v ==> Prefer(s, v, b)
  }

  lemma {:induction false} BestExists(s: Ftl, among: set<BlockKey>)
    requires among != {}
    ensures exists v :: IsBestOf(s, v, among)
  {
    var a :| a in among;
    var rest := among - {a};
    assert forall b :: b in among ==> b == a || b in rest;
    if rest == {} {
      assert IsBestOf(s, a, among);
    } else {
      BestExists(s, rest);
      var w :| IsBestOf(s, w, rest);
      assert IsBestOf(s, if Prefer(s, w, a) then w else a, among);
    }
  }

  /** The key of a block contains the block, so the maximum does not depend on dictionary order. */
  lemma BestUnique(s: Ftl, v: BlockKey, w: BlockKey, among: set<BlockKey>)
    requires IsBestOf(s, v, among) && IsBestOf(s, w, among)
    ensures v == w
  {
  }

  ghost function Victim(s: Ftl): (v: BlockKey)
    requires Candidates(s) != {}
    ensures IsBestOf(s, v, Candidates(s))
  {
    BestExists(s, Candidates(s));
    var v :| IsBestOf(s, v, Candidates(s));
    v
  }

  lemma {:induction false} LeastExists(s: set<int>)
    requires s != {}
    ensures exists m :: m in s && forall x :: x in s ==> m <= x
  {
    var a := Member(s);
    var rest := s - {a};
    assert forall x :: x in s ==> x == a || x in rest;
    if rest != {} {
      LeastExists(rest);
      var m :| m in rest && forall x :: x in rest ==> m <= x;
      if m < a {
        assert m in s && forall x :: x in s ==> m <= x;
      }
    }
  }

  function Least(s: set<int>): (m: int)
    requires s != {}
    ensures m in s && forall x :: x in s ==> m <= x
  {
    LeastExists(s);
    var m :| m in s && forall x :: x in s ==> m <= x;
    m
  }

  function SortedSet(s: set<int>): (q: seq<int>)
    ensures |q| == |s|
    ensures forall x :: x in q <==> x in s
    ensures forall i, j :: 0 <= i < j < |q| ==> q[i] < q[j]
  {
    if s == {} then []
    else
      var m := Least(s);
      [m] + SortedSet(s - {m})
  }

  /** A default dictionary after reading the entries of `keys`. */
  function WithDefaults(m: map<BlockKey, int>, keys: set<BlockKey>): map<BlockKey, int> {
    m + (map b | b in keys && b !in m :: 0)
  }

  /** Entries that the victim choice creates in the default dictionaries. */
  function Touch(s: Ftl, v: BlockKey): Ftl {
    s.(erase := WithDefaults(s.erase, Candidates(s)), valid := s.valid[v := LiveAt(s, v)])
  }

  function Relocate(s: Ftl, v: BlockKey, lpns: seq<int>): (o: Outcome<()>)
    requires s.cfg.Valid()
    ensures o.state.cfg == s.cfg
    decreases |lpns|
  {
    if lpns == [] then Outcome(s, Ok(()))
    else
      var o := Place(s, lpns[0], Some(v));
      if o.result.Err? then Outcome(o.state, Err(o.result.error))
      else Relocate(o.state, v, lpns[1..])
  }

  function BlockPageSeq(cfg: Config, b: BlockKey): (q: seq<PhysicalPage>)
    requires cfg.Valid()
  {
    seq(cfg.pagesPerBlock, i => PhysicalPage(b.channel, b.die, b.block, i))
  }

  function Reclaim(s: Ftl, v: BlockKey): Ftl
    requires s.cfg.Valid()
  {
    s.(valid := s.valid[v := {}],
       invalid := s.invalid[v := 0],
       erase := s.erase[v := EraseAt(s, v) + 1],
       reclaimed := s.reclaimed + BlockPageSeq(s.cfg, v))
  }

  /** Move the live pages, then erase and recycle the victim. */
  function CollectLive(s: Ftl, v: BlockKey, live: seq<int>): Outcome<GcResult>
    requires s.cfg.Valid()
  {
    var moved := Relocate(s, v, live);
    if moved.result.Err? then Outcome(moved.state, Err(moved.result.error))
    else Outcome(Reclaim(moved.state, v),
                 Ok(GcResult(v, |live|, s.cfg.pagesPerBlock, EraseAt(moved.state, v) + 1)))
  }

  function CollectVictim(s: Ftl, v: BlockKey): Outcome<GcResult>
    requires s.cfg.Valid()
  {
    var live := SortedSet(LiveAt(s, v));
    if FreePages(s) < |live| then Outcome(Touch(s, v), Err(InsufficientWorkspace))
    else CollectLive(Touch(s, v), v, live)
  }

  ghost function Collect(s: Ftl): Outcome<GcResult>
    requires s.cfg.Valid()
  {
    if Candidates(s) == {} then Outcome(s, Err(NoReclaimableBlock))
    else CollectVictim(s, Victim(s))
  }
}
