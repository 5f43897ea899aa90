/** Request ordering of src/openflash/scheduler.py: arrival order, and read priority with a bound
    on write starvation. */
module Scheduler {
  import opened Geometry

  datatype Operation = Read | Write | Erase

  datatype IoRequest = IoRequest(id: nat, op: Operation, lpn: nat, pages: nat, arrival: real)

  datatype Item = Item(request: IoRequest, physical: PhysicalPage)

  predicate IsRead(x: Item) {
    x.request.op.Read?
  }

  predicate SameKey(a: Item, b: Item) {
    a.request.arrival == b.request.arrival && a.request.id == b.request.id
  }

  /** Arrival time, then request id. */
  predicate NotAfter(a: Item, b: Item) {
    a.request.arrival < b.request.arrival || (a.request.arrival == b.request.arrival && a.request.id <= b.request.id)
  }

  function Select(q: seq<Item>, f: Item -> bool): seq<Item> {
    if q == [] then [] else (if f(q[0]) then [q[0]] else []) + Select(q[1..], f)
  }

  function NotRead(): Item -> bool {
    x => !IsRead(x)
  }

  function WithKey(k: Item): Item -> bool {
    x => SameKey(x, k)
  }

  // ----- sorting

  function Insert(x: Item, q: seq<Item>): seq<Item> {
    if q == [] || NotAfter(x, q[0]) then [x] + q else [q[0]] + Insert(x, q[1..])
  }

  /** The stable sort by (arrival, id). */
  function Sort(q: seq<Item>): seq<Item> {
    if q == [] then [] else Insert(q[0], Sort(q[1..]))
  }

  /** Earlier arrivals come first, and of equal arrivals the smaller id. */
  ghost predicate Ordered(q: seq<Item>) {
    forall i, j :: 0 <= i < j < |q| ==>
      var a, b := q[i].request, q[j].request;
      a.arrival < b.arrival || (a.arrival == b.arrival && a.id <= b.id)
  }

  /** The same in terms of the comparison the sort uses. */
  ghost predicate Sorted(q: seq<Item>) {
    forall i, j :: 0 <= i < j < |q| ==> NotAfter(q[i], q[j])
  }

  lemma SortedIsOrdered(q: seq<Item>)
    ensures Sorted(q) <==> Ordered(q)
  {
    if Ordered(q) {
      forall i, j | 0 <= i < j < |q| ensures NotAfter(q[i], q[j]) {}
    }
  }

  lemma {:induction false} InsertKeeps(x: Item, q: seq<Item>)
    requires Sorted(q)
    ensures Sorted(Insert(x, q)) && multiset(Insert(x, q)) == multiset{x} + multiset(q)
  {
    if q != [] {
      assert q == [q[0]] + q[1..];
      if !NotAfter(x, q[0]) {
        InsertKeeps(x, q[1..]);
        var r := Insert(x, q[1..]);
        forall y | y in r
          ensures NotAfter(q[0], y)
        {
          assert y in multiset(r);
          assert y == x || y in q[1..];
        }
      }
    }
  }

  lemma {:induction false} InsertStable(x: Item, q: seq<Item>, k: Item)
    ensures Select(Insert(x, q), WithKey(k)) == Select([x] + q, WithKey(k))
  {
    if q != [] && !NotAfter(x, q[0]) {
      InsertStable(x, q[1..], k);
      assert ([x] + q)[1..] == q && ([x] + q[1..])[1..] == q[1..];
      assert ([q[0]] + Insert(x, q[1..]))[1..] == Insert(x, q[1..]);
    }
  }

  lemma {:induction false} SortSorts(q: seq<Item>)
    ensures Sorted(Sort(q)) && multiset(Sort(q)) == multiset(q)
  {
    if q != [] {
      SortSorts(q[1..]);
      InsertKeeps(q[0], Sort(q[1..]));
      assert q == [q[0]] + q[1..];
    }
  }

  lemma {:induction false} SortStable(q: seq<Item>, k: Item)
    ensures Select(Sort(q), WithKey(k)) == Select(q, WithKey(k))
  {
    if q != [] {
      SortStable(q[1..], k);
      InsertStable(q[0], Sort(q[1..]), k);
      assert ([q[0]] + Sort(q[1..]))[1..] == Sort(q[1..]);
    }
  }

  /** Sorting permutes, orders, and keeps requests with equal keys in their given order. */
  lemma SortCorrect(q: seq<Item>)
    ensures Ordered(Sort(q)) && multiset(Sort(q)) == multiset(q) && |Sort(q)| == |q|
    ensures forall k: Item :: Select(Sort(q), WithKey(k)) == Select(q, WithKey(k))
  {
    SortSorts(q);
    SortedIsOrdered(Sort(q));
    assert |multiset(Sort(q))| == |multiset(q)|;
    forall k: Item
      ensures Select(Sort(q), WithKey(k)) == Select(q, WithKey(k))
    {
      SortStable(q, k);
    }
  }

  // ----- read priority

  /** Reads first, but at most `limit` of them in a row while a write waits. */
  function Interleave(readQ: seq<Item>, writeQ: seq<Item>, burst: nat, limit: int): seq<Item>
    decreases |readQ| + |writeQ|
  {
    if readQ == [] && writeQ == [] then []
    else if readQ != [] && (writeQ == [] || burst < limit) then [readQ[0]] + Interleave(readQ[1..], writeQ, burst + 1, limit)
    else [writeQ[0]] + Interleave(readQ, writeQ[1..], 0, limit)
  }

  function ReadPriorityOrder(q: seq<Item>, limit: int): seq<Item> {
    Interleave(Sort(Select(q, IsRead)), Sort(Select(q, NotRead())), 0, limit)
  }

  /** The deques are popped from the left until both are empty. */
  method OrderByReadPriority(q: seq<Item>, limit: int) returns (ordered: seq<Item>)
    ensures ordered == ReadPriorityOrder(q, limit)
  {
    var readQ, writeQ := Sort(Select(q, IsRead)), Sort(Select(q, NotRead()));
    var burst := 0;
    ordered := [];
    while readQ != [] || writeQ != []
      invariant burst >= 0
      invariant ordered + Interleave(readQ, writeQ, burst, limit) == ReadPriorityOrder(q, limit)
      decreases |readQ| + |writeQ|
    {
      if readQ != [] && (writeQ == [] || burst < limit) {
        Associate(ordered, readQ[0], Interleave(readQ[1..], writeQ, burst + 1, limit));
        ordered, readQ, burst := ordered + [readQ[0]], readQ[1..], burst + 1;
      } else {
        Associate(ordered, writeQ[0], Interleave(readQ, writeQ[1..], 0, limit));
        ordered, writeQ, burst := ordered + [writeQ[0]], writeQ[1..], 0;
      }
    }
  }

  lemma Associate(a: seq<Item>, x: Item, b: seq<Item>)
    ensures a + ([x] + b) == a + [x] + b
  {
  }

  lemma {:induction false} SelectAll(q: seq<Item>)
    ensures multiset(q) == multiset(Select(q, IsRead)) + multiset(Select(q, NotRead()))
    ensures forall x :: x in Select(q, IsRead) ==> IsRead(x)
    ensures forall x :: x in Select(q, NotRead()) ==> !IsRead(x)
  {
    if q != [] {
      assert q == [q[0]] + q[1..];
      SelectAll(q[1..]);
    }
  }

  ghost predicate Split(readQ: seq<Item>, writeQ: seq<Item>) {
    (forall x :: x in readQ ==> IsRead(x)) && (forall x :: x in writeQ ==> !IsRead(x))
  }

  lemma SplitTail(readQ: seq<Item>, writeQ: seq<Item>)
    requires Split(readQ, writeQ)
    ensures readQ != [] ==> IsRead(readQ[0]) && Split(readQ[1..], writeQ)
    ensures writeQ != [] ==> !IsRead(writeQ[0]) && Split(readQ, writeQ[1..])
  {
  }

  lemma SelectCons(x: Item, q: seq<Item>, f: Item -> bool)
    ensures Select([x] + q, f) == (if f(x) then [x] else []) + Select(q, f)
  {
    assert ([x] + q)[1..] == q;
  }

  lemma {:induction false} InterleavePermutes(readQ: seq<Item>, writeQ: seq<Item>, burst: nat, limit: int)
    ensures multiset(Interleave(readQ, writeQ, burst, limit)) == multiset(readQ) + multiset(writeQ)
    decreases |readQ| + |writeQ|
  {
    if readQ != [] && (writeQ == [] || burst < limit) {
      InterleavePermutes(readQ[1..], writeQ, burst + 1, limit);
      assert readQ == [readQ[0]] + readQ[1..];
    } else if writeQ != [] {
      InterleavePermutes(readQ, writeQ[1..], 0, limit);
      assert writeQ == [writeQ[0]] + writeQ[1..];
    }
  }

  /** Interleaving keeps each class in its order. */
  lemma {:induction false} InterleaveKeeps(readQ: seq<Item>, writeQ: seq<Item>, burst: nat, limit: int)
    requires Split(readQ, writeQ)
    ensures Select(Interleave(readQ, writeQ, burst, limit), IsRead) == readQ
    ensures Select(Interleave(readQ, writeQ, burst, limit), NotRead()) == writeQ
    decreases |readQ| + |writeQ|
  {
    SplitTail(readQ, writeQ);
    if readQ != [] && (writeQ == [] || burst < limit) {
      var rest := Interleave(readQ[1..], writeQ, burst + 1, limit);
      InterleaveKeeps(readQ[1..], writeQ, burst + 1, limit);
      SelectCons(readQ[0], rest, IsRead);
      SelectCons(readQ[0], rest, NotRead());
    } else if writeQ != [] {
      var rest := Interleave(readQ, writeQ[1..], 0, limit);
      InterleaveKeeps(readQ, writeQ[1..], 0, limit);
      SelectCons(writeQ[0], rest, IsRead);
      SelectCons(writeQ[0], rest, NotRead());
    }
  }

  /** The number of reads before the k-th write, counting from 0. */
  function ReadsBefore(out: seq<Item>, k: nat): nat {
    if out == [] then 0
    else if out[0].request.op.Read? then 1 + ReadsBefore(out[1..], k)
    else if k == 0 then 0
    else ReadsBefore(out[1..], k - 1)
  }

  function Min(a: int, b: int): int {
    if a < b then a else b
  }

  function Positive(a: int): nat {
    if a < 0 then 0 else a
  }

  lemma {:induction false} InterleaveStarvation(readQ: seq<Item>, writeQ: seq<Item>, burst: nat, limit: int, k: nat)
    requires Split(readQ, writeQ) && k < |writeQ|
    ensures ReadsBefore(Interleave(readQ, writeQ, burst, limit), k) == Min(|readQ|, Positive(limit - burst) + k * Positive(limit))
    decreases |readQ| + |writeQ|
  {
    SplitTail(readQ, writeQ);
    var l := Positive(limit);
    if readQ != [] && burst < limit {
      InterleaveStarvation(readQ[1..], writeQ, burst + 1, limit, k);
    } else if k > 0 {
      InterleaveStarvation(readQ, writeQ[1..], 0, limit, k - 1);
      assert l + (k - 1) * l == k * l;
    } else {
      assert 0 * l == 0;
    }
  }

  /** Read-priority order is a permutation that keeps reads and writes each in arrival order. */
  lemma ReadPriorityKeepsOrder(q: seq<Item>, limit: int)
    ensures var out := ReadPriorityOrder(q, limit);
            && multiset(out) == multiset(q)
            && Select(out, IsRead) == Sort(Select(q, IsRead)) && Ordered(Select(out, IsRead))
            && Select(out, NotRead()) == Sort(Select(q, NotRead())) && Ordered(Select(out, NotRead()))
  {
    var readQ, writeQ := Select(q, IsRead), Select(q, NotRead());
    SelectAll(q);
    SortCorrect(readQ);
    SortCorrect(writeQ);
    SortedSplit(q);
    InterleaveKeeps(Sort(readQ), Sort(writeQ), 0, limit);
    InterleavePermutes(Sort(readQ), Sort(writeQ), 0, limit);
  }

  lemma {:induction false} SelectHas(q: seq<Item>, f: Item -> bool, i: nat) returns (a: nat)
    requires i < |q| && f(q[i])
    ensures a < |Select(q, f)| && Select(q, f)[a] == q[i]
  {
    if i == 0 {
      a := 0;
    } else {
      a := SelectHas(q[1..], f, i - 1);
      a := a + if f(q[0]) then 1 else 0;
    }
  }

  /** Selecting keeps the order of what it selects. */
  lemma {:induction false} SelectPair(q: seq<Item>, f: Item -> bool, i: nat, j: nat) returns (a: nat, b: nat)
    requires i < j < |q| && f(q[i]) && f(q[j])
    ensures a < b < |Select(q, f)| && Select(q, f)[a] == q[i] && Select(q, f)[b] == q[j]
  {
    if i == 0 {
      b := SelectHas(q[1..], f, j - 1);
      a, b := 0, b + 1;
    } else {
      a, b := SelectPair(q[1..], f, i - 1, j - 1);
      var shift := if f(q[0]) then 1 else 0;
      a, b := a + shift, b + shift;
    }
  }

  /** In read-priority order two reads, or two requests neither of which is a read, come by arrival
      time and then id. */
  lemma ReadPriorityPairs(q: seq<Item>, limit: int, i: nat, j: nat)
    requires i < j < |ReadPriorityOrder(q, limit)|
    ensures var a, b := ReadPriorityOrder(q, limit)[i].request, ReadPriorityOrder(q, limit)[j].request;
            a.op.Read? == b.op.Read? ==> a.arrival < b.arrival || (a.arrival == b.arrival && a.id <= b.id)
  {
    ReadPriorityKeepsOrder(q, limit);
    var out := ReadPriorityOrder(q, limit);
    if IsRead(out[i]) && IsRead(out[j]) {
      var a, b := SelectPair(out, IsRead, i, j);
      assert Ordered(Select(out, IsRead));
    } else if !IsRead(out[i]) && !IsRead(out[j]) {
      var a, b := SelectPair(out, NotRead(), i, j);
      assert Ordered(Select(out, NotRead()));
    }
  }

  lemma SortedSplit(q: seq<Item>)
    ensures Split(Sort(Select(q, IsRead)), Sort(Select(q, NotRead())))
  {
    var readQ, writeQ := Select(q, IsRead), Select(q, NotRead());
    SelectAll(q);
    SortCorrect(readQ);
    SortCorrect(writeQ);
    forall x | x in Sort(readQ) ensures IsRead(x) { assert x in multiset(Sort(readQ)); }
    forall x | x in Sort(writeQ) ensures !IsRead(x) { assert x in multiset(Sort(writeQ)); }
  }

  /** Exactly min(reads, (k + 1) * limit) reads go before the k-th write: no write waits for more
      than `limit` further reads. */
  lemma WriteStarvation(q: seq<Item>, limit: int, k: nat)
    requires k < |Select(q, NotRead())|
    ensures ReadsBefore(ReadPriorityOrder(q, limit), k) == Min(|Select(q, IsRead)|, (k + 1) * Positive(limit))
  {
    SortCorrect(Select(q, IsRead));
    SortCorrect(Select(q, NotRead()));
    SortedSplit(q);
    InterleaveStarvation(Sort(Select(q, IsRead)), Sort(Select(q, NotRead())), 0, limit, k);
    OneMore(k, Positive(limit));
  }

  lemma OneMore(k: int, l: int)
    ensures l + k * l == (k + 1) * l
  {
  }
}
