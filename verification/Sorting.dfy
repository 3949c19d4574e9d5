/** The stable ascending sort that `sorted` performs, and the uniqueness of its result. */
module Sorting {
  ghost predicate LinearOrder<T(!new)>(leq: (T, T) -> bool) {
    && (forall x, y :: leq(x, y) || leq(y, x))
    && (forall x, y :: leq(x, y) && leq(y, x) ==> x == y)
    && (forall x, y, z :: leq(x, y) && leq(y, z) ==> leq(x, z))
  }

  ghost predicate Sorted<T(!new)>(s: seq<T>, leq: (T, T) -> bool) {
    s != [] ==> (forall y :: y in s[1..] ==> leq(s[0], y)) && Sorted(s[1..], leq)
  }

  function Insert<T>(x: T, s: seq<T>, leq: (T, T) -> bool): (r: seq<T>)
    ensures |r| == |s| + 1
  {
    if s == [] then [x]
    else if leq(x, s[0]) then [x] + s
    else [s[0]] + Insert(x, s[1..], leq)
  }

  function Sort<T>(s: seq<T>, leq: (T, T) -> bool): (r: seq<T>)
    ensures |r| == |s|
  {
    if s == [] then [] else Insert(s[0], Sort(s[1..], leq), leq)
  }

  lemma {:induction false} InsertKeeps<T>(x: T, s: seq<T>, leq: (T, T) -> bool)
    ensures multiset(Insert(x, s, leq)) == multiset(s) + multiset{x}
    ensures forall y :: y in Insert(x, s, leq) <==> y == x || y in s
  {
    if s != [] {
      assert s == [s[0]] + s[1..];
      InsertKeeps(x, s[1..], leq);
    }
  }

  lemma {:induction false} InsertSorts<T(!new)>(x: T, s: seq<T>, leq: (T, T) -> bool)
    requires LinearOrder(leq) && Sorted(s, leq)
    ensures Sorted(Insert(x, s, leq), leq)
  {
    if s != [] {
      if leq(x, s[0]) {
        assert ([x] + s)[1..] == s;
        forall y | y in s
          ensures leq(x, y)
        {
          assert y == s[0] || y in s[1..];
        }
      } else {
        InsertSorts(x, s[1..], leq);
        InsertKeeps(x, s[1..], leq);
        assert ([s[0]] + Insert(x, s[1..], leq))[1..] == Insert(x, s[1..], leq);
      }
    }
  }

  /** The result is sorted and is a permutation of the input. */
  lemma {:induction false} SortSorts<T(!new)>(s: seq<T>, leq: (T, T) -> bool)
    requires LinearOrder(leq)
    ensures Sorted(Sort(s, leq), leq)
    ensures multiset(Sort(s, leq)) == multiset(s)
  {
    if s != [] {
      assert s == [s[0]] + s[1..];
      SortSorts(s[1..], leq);
      InsertSorts(s[0], Sort(s[1..], leq), leq);
      InsertKeeps(s[0], Sort(s[1..], leq), leq);
    }
  }

  lemma {:induction false} SortedAt<T(!new)>(s: seq<T>, leq: (T, T) -> bool, i: nat, j: nat)
    requires Sorted(s, leq) && i < j < |s|
    ensures leq(s[i], s[j])
  {
    if i == 0 {
      assert s[j] == s[1..][j - 1];
    } else {
      SortedAt(s[1..], leq, i - 1, j - 1);
    }
  }

  lemma HeadLeast<T(!new)>(s: seq<T>, y: T, leq: (T, T) -> bool)
    requires LinearOrder(leq) && Sorted(s, leq) && y in s
    ensures leq(s[0], y)
  {
    assert leq(y, y);
    var i :| 0 <= i < |s| && s[i] == y;
    if i > 0 {
      SortedAt(s, leq, 0, i);
    }
  }

  lemma TailElements<T>(s: seq<T>)
    requires s != []
    ensures multiset(s[1..]) == multiset(s) - multiset{s[0]}
  {
    assert s == [s[0]] + s[1..];
  }

  lemma SameHead<T(!new)>(s: seq<T>, t: seq<T>, leq: (T, T) -> bool)
    requires LinearOrder(leq) && Sorted(s, leq) && Sorted(t, leq)
    requires multiset(s) == multiset(t) && s != [] && t != []
    ensures s[0] == t[0]
  {
    assert s[0] in multiset(t) && t[0] in multiset(s);
    HeadLeast(s, t[0], leq);
    HeadLeast(t, s[0], leq);
  }

  /** Two sorted sequences with the same elements are the same sequence. */
  lemma {:induction false} SortedUnique<T(!new)>(s: seq<T>, t: seq<T>, leq: (T, T) -> bool)
    requires LinearOrder(leq) && Sorted(s, leq) && Sorted(t, leq)
    requires multiset(s) == multiset(t)
    ensures s == t
  {
    assert |multiset(s)| == |multiset(t)|;
    if s != [] {
      SameHead(s, t, leq);
      TailElements(s);
      TailElements(t);
      SortedUnique(s[1..], t[1..], leq);
      assert s == [s[0]] + s[1..] && t == [t[0]] + t[1..];
    }
  }

  /** Sorting forgets the order in which the elements were collected. */
  lemma SortForgetsOrder<T(!new)>(s: seq<T>, t: seq<T>, leq: (T, T) -> bool)
    requires LinearOrder(leq) && multiset(s) == multiset(t)
    ensures Sort(s, leq) == Sort(t, leq)
  {
    SortSorts(s, leq);
    SortSorts(t, leq);
    SortedUnique(Sort(s, leq), Sort(t, leq), leq);
  }
}
