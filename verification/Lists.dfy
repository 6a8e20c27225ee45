/** Lists without duplicates, and sorting by insertion as a stand-in for the library's sort. */
module Lists {

  ghost predicate Distinct<T>(q: seq<T>) {
    forall i, j :: 0 <= i < j < |q| ==> q[i] != q[j]
  }

  lemma {:induction false} OnceEach<T>(q: seq<T>, x: T)
    requires Distinct(q)
    ensures multiset(q)[x] == if x in q then 1 else 0
  {
    if q == [] {
    } else {
      var front, last := q[..|q| - 1], q[|q| - 1];
      OnceEach(front, x);
      assert q == front + [last];
      assert last !in front;
    }
  }

  lemma TwiceThere<T>(q: seq<T>, i: nat, j: nat)
    requires i < j < |q| && q[i] == q[j]
    ensures multiset(q)[q[i]] >= 2
  {
    assert q == q[..j] + [q[j]] + q[j + 1..];
    assert q[i] in q[..j];
  }

  lemma PermutationIsDistinct<T>(a: seq<T>, b: seq<T>)
    requires Distinct(a) && multiset(a) == multiset(b)
    ensures Distinct(b)
  {
    forall i, j | 0 <= i < j < |b|
      ensures b[i] != b[j]
    {
      if b[i] == b[j] {
        TwiceThere(b, i, j);
        OnceEach(a, b[i]);
        assert false;
      }
    }
  }

  // ---------------------------------------------------------------------- sorting

  ghost predicate Total<T(!new)>(leq: (T, T) -> bool) {
    && (forall a, b :: leq(a, b) || leq(b, a))
    && (forall a, b, c :: leq(a, b) && leq(b, c) ==> leq(a, c))
  }

  ghost predicate Antisymmetric<T(!new)>(leq: (T, T) -> bool) {
    forall a, b :: leq(a, b) && leq(b, a) ==> a == b
  }

  ghost predicate BeforeAll<T>(x: T, q: seq<T>, leq: (T, T) -> bool) {
    forall y :: y in q ==> leq(x, y)
  }

  ghost predicate Sorted<T>(q: seq<T>, leq: (T, T) -> bool) {
    q == [] || (BeforeAll(q[0], q[1..], leq) && Sorted(q[1..], leq))
  }

  function Insert<T>(q: seq<T>, x: T, leq: (T, T) -> bool): seq<T> {
    if q == [] || leq(x, q[0]) then [x] + q else [q[0]] + Insert(q[1..], x, leq)
  }

  function Sort<T>(q: seq<T>, leq: (T, T) -> bool): seq<T> {
    if q == [] then [] else Insert(Sort(q[..|q| - 1], leq), q[|q| - 1], leq)
  }

  lemma {:induction false} InsertKeeps<T>(q: seq<T>, x: T, leq: (T, T) -> bool)
    ensures multiset(Insert(q, x, leq)) == multiset(q) + multiset{x}
    ensures forall y :: y in Insert(q, x, leq) <==> y in q || y == x
  {
    if q == [] || leq(x, q[0]) {
    } else {
      InsertKeeps(q[1..], x, leq);
      assert q == [q[0]] + q[1..];
    }
  }

  lemma FirstOrLater<T>(q: seq<T>, x: T)
    requires x in q
    ensures x == q[0] || x in q[1..]
  {
  }

  lemma BeforeFirstIsBeforeAll<T(!new)>(x: T, q: seq<T>, leq: (T, T) -> bool)
    requires Total(leq) && q != [] && leq(x, q[0]) && BeforeAll(q[0], q[1..], leq)
    ensures BeforeAll(x, q, leq)
  {
    forall y | y in q
      ensures leq(x, y)
    {
      FirstOrLater(q, y);
    }
  }

  lemma {:induction false} InsertSorts<T(!new)>(q: seq<T>, x: T, leq: (T, T) -> bool)
    requires Total(leq) && Sorted(q, leq)
    ensures Sorted(Insert(q, x, leq), leq)
  {
    if q == [] {
      assert [x][1..] == [];
    } else if leq(x, q[0]) {
      BeforeFirstIsBeforeAll(x, q, leq);
      assert ([x] + q)[1..] == q;
    } else {
      InsertSorts(q[1..], x, leq);
      InsertKeeps(q[1..], x, leq);
      assert leq(q[0], x);
      assert ([q[0]] + Insert(q[1..], x, leq))[1..] == Insert(q[1..], x, leq);
    }
  }

  lemma {:induction false} SortKeeps<T>(q: seq<T>, leq: (T, T) -> bool)
    ensures multiset(Sort(q, leq)) == multiset(q)
  {
    if q == [] {
    } else {
      var front, last := q[..|q| - 1], q[|q| - 1];
      SortKeeps(front, leq);
      InsertKeeps(Sort(front, leq), last, leq);
      assert q == front + [last];
    }
  }

  lemma {:induction false} SortSorts<T(!new)>(q: seq<T>, leq: (T, T) -> bool)
    requires Total(leq)
    ensures Sorted(Sort(q, leq), leq)
  {
    if q == [] {
    } else {
      SortSorts(q[..|q| - 1], leq);
      InsertSorts(Sort(q[..|q| - 1], leq), q[|q| - 1], leq);
    }
  }

  lemma {:induction false} SortedIsOrdered<T>(q: seq<T>, leq: (T, T) -> bool)
    requires Sorted(q, leq)
    ensures forall i, j :: 0 <= i < j < |q| ==> leq(q[i], q[j])
  {
    if q == [] {
    } else {
      SortedIsOrdered(q[1..], leq);
      assert forall j :: 1 <= j < |q| ==> q[j] == q[1..][j - 1] && q[1..][j - 1] in q[1..];
    }
  }

  lemma SameElements<T>(a: seq<T>, b: seq<T>)
    requires multiset(a) == multiset(b)
    ensures |a| == |b| && forall x :: x in a <==> x in b
  {
    assert |multiset(a)| == |a| && |multiset(b)| == |b|;
    assert forall x :: x in a <==> x in multiset(a);
    assert forall x :: x in b <==> x in multiset(b);
  }

  lemma SameFirst<T(!new)>(a: seq<T>, b: seq<T>, leq: (T, T) -> bool)
    requires Antisymmetric(leq) && Sorted(a, leq) && Sorted(b, leq) && a != [] && b != []
    requires forall x :: x in a <==> x in b
    ensures a[0] == b[0]
  {
    assert a[0] in a && b[0] in b;
    FirstOrLater(a, b[0]);
    FirstOrLater(b, a[0]);
  }

  lemma TailElements<T>(q: seq<T>)
    requires q != []
    ensures multiset(q[1..]) == multiset(q) - multiset{q[0]}
  {
    assert q == [q[0]] + q[1..];
  }

  /** There is one way to sort when only equal elements come both before and after each other. */
  lemma {:induction false} SortedIsUnique<T(!new)>(a: seq<T>, b: seq<T>, leq: (T, T) -> bool)
    requires Antisymmetric(leq) && Sorted(a, leq) && Sorted(b, leq) && multiset(a) == multiset(b)
    ensures a == b
  {
    SameElements(a, b);
    if a == [] {
    } else {
      SameFirst(a, b, leq);
      TailElements(a);
      TailElements(b);
      SortedIsUnique(a[1..], b[1..], leq);
      SameParts(a, b);
    }
  }

  lemma SameParts<T>(a: seq<T>, b: seq<T>)
    requires a != [] && b != [] && a[0] == b[0] && a[1..] == b[1..]
    ensures a == b
  {
    assert a == [a[0]] + a[1..] && b == [b[0]] + b[1..];
  }
}
