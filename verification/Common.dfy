module Common {
  datatype Option<+T> = None | Some(value: T)

  datatype Result<+T, +E> = Ok(value: T) | Err(error: E)

  lemma Member<T>(s: set<T>) returns (x: T)
    requires s != {}
    ensures x in s
  {
    x :| x in s;
  }

  /** An element of a set, in whatever order a dictionary or set would be iterated. */
  method AnyOf<T(==)>(s: set<T>) returns (x: T)
    requires s != {}
    ensures x in s
  {
    x :| x in s;
  }

  ghost predicate Distinct<T(!new)>(q: seq<T>) {
    forall i, j :: 0 <= i < j < |q| ==> q[i] != q[j]
  }

  ghost function Elements<T>(q: seq<T>): set<T> {
    set x | x in q
  }

  lemma {:induction false} ElementsCount<T(!new)>(q: seq<T>)
    requires Distinct(q)
    ensures |Elements(q)| == |q|
  {
    if q != [] {
      assert Elements(q) == Elements(q[1..]) + {q[0]};
      ElementsCount(q[1..]);
    } else {
      assert Elements(q) == {};
    }
  }

  lemma ConcatDistinct<T(!new)>(a: seq<T>, b: seq<T>)
    requires Distinct(a) && Distinct(b) && Elements(a) !! Elements(b)
    ensures Distinct(a + b) && Elements(a + b) == Elements(a) + Elements(b)
  {
    forall i, j | 0 <= i < |a| && 0 <= j < |b|
      ensures a[i] != b[j]
    {
      assert a[i] in Elements(a) && b[j] in Elements(b);
    }
  }

  ghost function UpTo(n: nat): set<int> {
    if n == 0 then {} else UpTo(n - 1) + {n}
  }

  lemma {:induction false} UpToCount(n: nat)
    ensures |UpTo(n)| == n
    ensures forall x :: x in UpTo(n) <==> 1 <= x <= n
  {
    if n > 0 {
      UpToCount(n - 1);
    }
  }

  lemma {:induction false} SubsetCount<T>(a: set<T>, b: set<T>)
    requires a <= b
    ensures |a| <= |b|
  {
    if a != {} {
      var x := Member(a);
      SubsetCount(a - {x}, b - {x});
    }
  }

  /** Distinct numbers drawn from 1..n are at most n many. */
  lemma Pigeonhole(q: seq<int>, n: nat)
    requires Distinct(q) && forall x :: x in q ==> 1 <= x <= n
    ensures |q| <= n
  {
    ElementsCount(q);
    UpToCount(n);
    SubsetCount(Elements(q), UpTo(n));
  }
}
