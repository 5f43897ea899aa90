/** Concrete runs that show the conditions of FtlRuns and FtlFlash to be needed. */
module FtlWitness {
  import opened Common
  import opened Geometry
  import opened FtlSpec
  import opened FtlInvariants
  import opened FtlCollect
  import opened FtlRuns
  import opened FtlFlash

  // ----- a collection that loses data

  function TwoPuts<D>(a: D, b: D): seq<DataOp<D>> {
    [Put(5, a), Put(5, b)]
  }

  lemma TwoPutsCareful<D>(a: D, b: D)
    ensures SMALL.Valid() && PlainAll(TwoPuts(a, b)) == [WriteOp(5), WriteOp(5)] && Careful(Fresh(SMALL), PlainAll(TwoPuts(a, b)))
  {
    var ops := TwoPuts(a, b);
    assert ops[1..] == [Put(5, b)] && ops[1..][1..] == [];
    assert PlainAll(ops[1..]) == [WriteOp(5)];
    RewriteOnce();
    SmallNumbers();
    assert [WriteOp(5), WriteOp(5)][1..] == [WriteOp(5)];
    assert CarefulStep(Rewritten(1), WriteOp(5));
  }

  lemma TwoPutsStored<D>(a: D, b: D)
    ensures SMALL.Valid() && Consistent(Rewritten(2))
    ensures var f := RunFlash(Fresh(SMALL), Flash(map[], true), TwoPuts(a, b));
            FlashOk(Rewritten(2), f) && View(Rewritten(2), f) == map[5 := b]
  {
    var ops := TwoPuts(a, b);
    TwoPutsCareful(a, b);
    RewriteRun();
    RewriteReplies();
    FreshRefinesStore(SMALL, ops);
    ApplyTwo(a, b, Run(Fresh(SMALL), [WriteOp(5), WriteOp(5)]).1);
  }

  lemma ApplyTwo<D>(a: D, b: D, replies: seq<Reply>)
    requires |replies| == 2 && replies[0].Page? && replies[1].Page?
    ensures Apply(map[], TwoPuts(a, b), replies) == map[5 := b]
  {
    var ops := TwoPuts(a, b);
    var first: map<int, D> := map[5 := a];
    assert ops[1..] == [Put(5, b)] && ops[1..][1..] == [];
    assert Apply(first[5 := b], ops[1..][1..], replies[1..][1..]) == first[5 := b];
    assert Apply(first, ops[1..], replies[1..]) == first[5 := b];
    assert first[5 := b] == map[5 := b];
  }

  lemma RewriteReplies()
    ensures SMALL.Valid()
    ensures var r := Run(Fresh(SMALL), [WriteOp(5), WriteOp(5)]).1; |r| == 2 && r[0].Page? && r[1].Page?
  {
    RewriteOnce();
    RewriteTwice();
    assert [WriteOp(5), WriteOp(5)][1..] == [WriteOp(5)];
    assert |Run(Rewritten(1), [WriteOp(5)]).1| == 1;
  }

  lemma CursorInVictim()
    ensures SMALL.Valid() && CursorEnters(SMALL, BlockKey(0, 0, 0), 2, 3)
  {
    SmallNumbers();
    assert At(SMALL, BlockKey(0, 0, 0), 2);
  }

  lemma RewrittenVictim()
    ensures Candidates(Rewritten(2)) != {} && Victim(Rewritten(2)) == BlockKey(0, 0, 0)
  {
    OnlyVictim(Rewritten(2));
  }

  /** Two puts on a one-block device, then a collection that returns: what lpn 5 holds is gone. */
  lemma CollectLosesData<D>(a: D, b: D)
    ensures SMALL.Valid()
    ensures var s, f := Run(Fresh(SMALL), PlainAll(TwoPuts(a, b))).0, RunFlash(Fresh(SMALL), Flash(map[], true), TwoPuts(a, b));
            && View(s, f) == map[5 := b] && Candidates(s) != {} && Collect(s).result.Ok?
            && View(Collect(s).state, CollectFlash(s, f, Victim(s))) != View(s, f)
  {
    TwoPutsCareful(a, b);
    TwoPutsStored(a, b);
    RewriteRun();
    RewrittenVictim();
    UnsealedCollectBreaks();
    CursorInVictim();
    assert LiveAt(Rewritten(2), B0) == {5};
    CollectKeepsViewIff(Rewritten(2), RunFlash(Fresh(SMALL), Flash(map[], true), TwoPuts(a, b)), B0);
  }

  // ----- a collection that raises half way

  const TWO_BLOCKS := Config(1, 1, 2, 4, 0)

  const B0 := BlockKey(0, 0, 0)
  const B1 := BlockKey(0, 0, 1)

  function P(block: int, page: int): PhysicalPage {
    PhysicalPage(0, 0, block, page)
  }

  lemma TwoBlocks()
    ensures TWO_BLOCKS.Valid() && TWO_BLOCKS.Dies() == 1 && TWO_BLOCKS.Capacity() == 8
    ensures forall n :: 0 <= n < 8 ==> PhysicalFromLinear(TWO_BLOCKS, n) == P(n / 4, n % 4)
  {
  }

  /** After writing 1, 1, 2 and 3: the first block is full, with one invalid page. */
  function Filled(): Ftl {
    Ftl(TWO_BLOCKS, map[1 := P(0, 1), 2 := P(0, 2), 3 := P(0, 3)], map[B0 := 1], map[B0 := {1, 2, 3}], map[], 4, [])
  }

  function Part(n: int): Ftl {
    if n == 1 then Ftl(TWO_BLOCKS, map[1 := P(0, 0)], map[], map[B0 := {1}], map[], 1, [])
    else if n == 2 then Ftl(TWO_BLOCKS, map[1 := P(0, 1)], map[B0 := 1], map[B0 := {1}], map[], 2, [])
    else Ftl(TWO_BLOCKS, map[1 := P(0, 1), 2 := P(0, 2)], map[B0 := 1], map[B0 := {1, 2}], map[], 3, [])
  }

  lemma FillSteps()
    ensures Write(Fresh(TWO_BLOCKS), 1) == Outcome(Part(1), Ok(P(0, 0)))
    ensures Write(Part(1), 1) == Outcome(Part(2), Ok(P(0, 1)))
    ensures Write(Part(2), 2) == Outcome(Part(3), Ok(P(0, 2)))
    ensures Write(Part(3), 3) == Outcome(Filled(), Ok(P(0, 3)))
  {
    TwoBlocks();
    assert LiveAt(Write(Fresh(TWO_BLOCKS), 1).state, B0) == {1};
    assert {1} - {1} + {1} == {1} && {1} + {2} == {1, 2} && {1, 2} + {3} == {1, 2, 3};
  }

  /** After the first collection: the live pages are in the second block, the first is recycled. */
  function Collected(): Ftl {
    Ftl(TWO_BLOCKS, map[1 := P(1, 0), 2 := P(1, 1), 3 := P(1, 2)], map[B0 := 0], map[B0 := {}, B1 := {1, 2, 3}],
        map[B0 := 1], 7, [P(0, 0), P(0, 1), P(0, 2), P(0, 3)])
  }

  lemma SortedThree()
    ensures SortedSet({1, 2, 3}) == [1, 2, 3]
  {
    var q := SortedSet({1, 2, 3});
    assert |q| == |{1, 2, 3}| == 3;
    assert q[0] in q && q[1] in q && q[2] in q;
  }

  function Moving(n: int): Ftl {
    var t := Touch(Filled(), B0);
    if n == 1 then t.(mapping := map[1 := P(1, 0), 2 := P(0, 2), 3 := P(0, 3)], valid := map[B0 := {1, 2, 3}, B1 := {1}], next := 5)
    else if n == 2 then t.(mapping := map[1 := P(1, 0), 2 := P(1, 1), 3 := P(0, 3)], valid := map[B0 := {1, 2, 3}, B1 := {1, 2}], next := 6)
    else t.(mapping := map[1 := P(1, 0), 2 := P(1, 1), 3 := P(1, 2)], valid := map[B0 := {1, 2, 3}, B1 := {1, 2, 3}], next := 7)
  }

  lemma MoveOne()
    ensures Place(Touch(Filled(), B0), 1, Some(B0)) == Outcome(Moving(1), Ok(P(1, 0)))
  {
    TwoBlocks();
    var o := Place(Touch(Filled(), B0), 1, Some(B0));
    assert LiveAt(o.state, B1) == {1};
    assert o.state.mapping == Moving(1).mapping && o.state.valid == Moving(1).valid;
  }

  lemma MoveTwo()
    ensures Place(Moving(1), 2, Some(B0)) == Outcome(Moving(2), Ok(P(1, 1)))
  {
    TwoBlocks();
    var o := Place(Moving(1), 2, Some(B0));
    assert {1} + {2} == {1, 2};
    assert o.state.mapping == Moving(2).mapping && o.state.valid == Moving(2).valid;
  }

  lemma MoveThree()
    ensures Place(Moving(2), 3, Some(B0)) == Outcome(Moving(3), Ok(P(1, 2)))
  {
    TwoBlocks();
    var o := Place(Moving(2), 3, Some(B0));
    assert {1, 2} + {3} == {1, 2, 3};
    assert o.state.mapping == Moving(3).mapping && o.state.valid == Moving(3).valid;
  }

  lemma MoveAll()
    ensures Relocate(Touch(Filled(), B0), B0, [1, 2, 3]) == Outcome(Moving(3), Ok(()))
  {
    TwoBlocks();
    MoveOne();
    MoveTwo();
    MoveThree();
    assert [1, 2, 3][1..] == [2, 3] && [2, 3][1..] == [3] && [3][1..] == [];
    assert Relocate(Moving(3), B0, []) == Outcome(Moving(3), Ok(()));
    assert Relocate(Moving(2), B0, [3]) == Outcome(Moving(3), Ok(()));
    assert Relocate(Moving(1), B0, [2, 3]) == Outcome(Moving(3), Ok(()));
  }

  lemma OnlyVictim(s: Ftl)
    requires B0 in s.invalid && s.invalid[B0] > 0 && s.invalid.Keys == {B0}
    ensures Candidates(s) != {} && Victim(s) == B0
  {
    assert B0 in Candidates(s);
    assert Candidates(s) == {B0};
  }

  lemma ReclaimStep()
    ensures Reclaim(Moving(3), B0) == Collected()
  {
    var t := Reclaim(Moving(3), B0);
    assert Candidates(Filled()) == {B0};
    assert Moving(3).erase == map[B0 := 0];
    assert BlockPageSeq(TWO_BLOCKS, B0) == [P(0, 0), P(0, 1), P(0, 2), P(0, 3)];
    assert t.valid == Collected().valid && t.invalid == Collected().invalid && t.erase == Collected().erase;
  }

  lemma CollectStep()
    ensures Collect(Filled()).state == Collected() && Collect(Filled()).result.Ok?
  {
    TwoBlocks();
    OnlyVictim(Filled());
    SortedThree();
    MoveAll();
    ReclaimStep();
    var t := Touch(Filled(), B0);
    assert LiveAt(Filled(), B0) == {1, 2, 3} && FreePages(Filled()) == 4;
    assert CollectVictim(Filled(), B0) == CollectLive(t, B0, [1, 2, 3]);
  }

  /** After writing 4, 5 and 4 again: the first block is in use, with one page still recycled. */
  function Reused(n: int): Ftl {
    var c := Collected();
    if n == 1 then c.(mapping := c.mapping[4 := P(0, 0)], valid := map[B0 := {4}, B1 := {1, 2, 3}], reclaimed := [P(0, 1), P(0, 2), P(0, 3)])
    else if n == 2 then
      c.(mapping := c.mapping[4 := P(0, 0)][5 := P(0, 1)], valid := map[B0 := {4, 5}, B1 := {1, 2, 3}], reclaimed := [P(0, 2), P(0, 3)])
    else
      c.(mapping := c.mapping[4 := P(0, 2)][5 := P(0, 1)], valid := map[B0 := {4, 5}, B1 := {1, 2, 3}], invalid := map[B0 := 1],
         reclaimed := [P(0, 3)])
  }

  lemma ReuseOne()
    ensures Write(Collected(), 4) == Outcome(Reused(1), Ok(P(0, 0)))
  {
    var o := Write(Collected(), 4);
    assert {} + {4} == {4};
    assert o.state.valid == Reused(1).valid && o.state.reclaimed == Reused(1).reclaimed;
  }

  lemma ReuseTwo()
    ensures Write(Reused(1), 5) == Outcome(Reused(2), Ok(P(0, 1)))
  {
    var o := Write(Reused(1), 5);
    assert {4} + {5} == {4, 5};
    assert o.state.valid == Reused(2).valid && o.state.reclaimed == Reused(2).reclaimed;
  }

  lemma ReuseThree()
    ensures Write(Reused(2), 4) == Outcome(Reused(3), Ok(P(0, 2)))
  {
    var o := Write(Reused(2), 4);
    assert {4, 5} - {4} + {4} == {4, 5};
    assert o.state.valid == Reused(3).valid && o.state.reclaimed == Reused(3).reclaimed;
    assert o.state.mapping == Reused(3).mapping;
  }

  lemma FilledConsistent()
    ensures Consistent(Filled())
  {
    TwoBlocks();
    FillSteps();
    FreshConsistent(TWO_BLOCKS);
    WriteKeepsConsistent(Fresh(TWO_BLOCKS), 1);
    WriteKeepsConsistent(Part(1), 1);
    WriteKeepsConsistent(Part(2), 2);
    WriteKeepsConsistent(Part(3), 3);
  }

  lemma FilledClear()
    ensures TWO_BLOCKS.Valid() && Clear(Filled(), B0)
  {
    TwoBlocks();
  }

  lemma ReusedConsistent()
    ensures Consistent(Reused(3))
  {
    FilledConsistent();
    FilledClear();
    OnlyVictim(Filled());
    CollectConsistentIffSafe(Filled());
    CollectStep();
    ReuseOne();
    ReuseTwo();
    ReuseThree();
    WriteKeepsConsistent(Collected(), 4);
    WriteKeepsConsistent(Reused(1), 5);
    WriteKeepsConsistent(Reused(2), 4);
  }

  lemma RunCons(s: Ftl, op: Op, ops: seq<Op>)
    requires s.cfg.Valid()
    ensures Step(s, op).0.cfg.Valid() && Run(s, [op] + ops).0 == Run(Step(s, op).0, ops).0
  {
    StepKeepsConfig(s, op);
    assert ([op] + ops)[1..] == ops;
  }

  /** Writes of 1, 1, 2 and 3, a collection, and writes of 4, 5 and 4. */
  function HalfWay(): seq<Op> {
    [WriteOp(1)] + ([WriteOp(1)] + ([WriteOp(2)] + ([WriteOp(3)] + Rest())))
  }

  function Rest(): seq<Op> {
    [GcOp] + ([WriteOp(4)] + ([WriteOp(5)] + ([WriteOp(4)] + [])))
  }

  lemma ReuseRun()
    ensures TWO_BLOCKS.Valid() && Run(Collected(), [WriteOp(4)] + ([WriteOp(5)] + ([WriteOp(4)] + []))).0 == Reused(3)
  {
    TwoBlocks();
    ReuseOne();
    ReuseTwo();
    ReuseThree();
    RunCons(Collected(), WriteOp(4), [WriteOp(5)] + ([WriteOp(4)] + []));
    RunCons(Reused(1), WriteOp(5), [WriteOp(4)] + []);
    RunCons(Reused(2), WriteOp(4), []);
  }

  lemma RestRun()
    ensures TWO_BLOCKS.Valid() && Run(Filled(), Rest()).0 == Reused(3)
  {
    ReuseRun();
    CollectStep();
    RunCons(Filled(), GcOp, [WriteOp(4)] + ([WriteOp(5)] + ([WriteOp(4)] + [])));
  }

  lemma HalfWayRun()
    ensures TWO_BLOCKS.Valid() && Run(Fresh(TWO_BLOCKS), HalfWay()).0 == Reused(3)
  {
    TwoBlocks();
    FillSteps();
    RestRun();
    RunCons(Fresh(TWO_BLOCKS), WriteOp(1), [WriteOp(1)] + ([WriteOp(2)] + ([WriteOp(3)] + Rest())));
    RunCons(Part(1), WriteOp(1), [WriteOp(2)] + ([WriteOp(3)] + Rest()));
    RunCons(Part(2), WriteOp(2), [WriteOp(3)] + Rest());
    RunCons(Part(3), WriteOp(3), Rest());
  }

  /** A reachable consistent FTL whose collection passes the workspace check, moves one page and then
      raises: its free pages are two, but one of them lies in the victim. The tables are left wrong. */
  lemma RaisedCollectBreaks()
    ensures TWO_BLOCKS.Valid()
    ensures var s := Run(Fresh(TWO_BLOCKS), HalfWay()).0;
            && Consistent(s) && Candidates(s) != {} && |LiveAt(s, Victim(s))| <= FreePages(s)
            && Collect(s).result.Err? && !Consistent(Collect(s).state)
  {
    HalfWayRun();
    ReusedConsistent();
    ReusedCounts();
    CollectSucceeds(Reused(3));
    RaisedCollect(Reused(3), B0);
  }

  lemma ReusedCounts()
    ensures var s := Reused(3);
            && Candidates(s) != {} && Victim(s) == B0
            && |LiveAt(s, B0)| == 2 && FreePages(s) == 2 && Usable(s, B0) == 1
  {
    TwoBlocks();
    var s := Reused(3);
    OnlyVictim(s);
    assert LiveAt(s, B0) == {4, 5};
    assert OutsideCount(s.reclaimed, B0) == 0;
  }
}
