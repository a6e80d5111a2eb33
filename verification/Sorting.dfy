/** Stable sorting of lists of values, by a total preorder. */
module Sorting {
  import opened Sums

  /** On the members of a list. */
  ghost predicate TotalPreorder<T>(le: (T, T) -> bool, xs: seq<T>) {
    && (forall x, y :: x in xs && y in xs ==> le(x, y) || le(y, x))
    && (forall x, y, z :: x in xs && y in xs && z in xs && le(x, y) && le(y, z) ==> le(x, z))
  }

  ghost predicate Ascending<T>(le: (T, T) -> bool, xs: seq<T>) { forall i, j :: 0 <= i < j < |xs| ==> le(xs[i], xs[j]) }

  function Insert<T>(le: (T, T) -> bool, xs: seq<T>, x: T): seq<T> {
    if xs == [] || le(xs[|xs|-1], x) then xs + [x] else Insert(le, xs[..|xs|-1], x) + [xs[|xs|-1]]
  }

  function Sorted<T>(le: (T, T) -> bool, xs: seq<T>): seq<T> {
    if xs == [] then [] else Insert(le, Sorted(le, xs[..|xs|-1]), xs[|xs|-1])
  }

  lemma {:induction false} InsertPermutes<T>(le: (T, T) -> bool, xs: seq<T>, x: T)
    ensures multiset(Insert(le, xs, x)) == multiset(xs) + multiset{x}
  {
    if xs != [] && !le(xs[|xs|-1], x) {
      InsertPermutes(le, xs[..|xs|-1], x);
      MultisetAppend(Insert(le, xs[..|xs|-1], x), xs[|xs|-1]);
      MultisetRemoveLast(xs);
    } else {
      MultisetAppend(xs, x);
    }
  }

  lemma MembersAfter<T>(ys: seq<T>, xs: seq<T>, x: T)
    requires multiset(ys) == multiset(xs) + multiset{x}
    ensures forall y :: y in ys ==> y in xs || y == x
  {
    forall y | y in ys ensures y in xs || y == x {
      assert y in multiset(ys);
    }
  }

  lemma {:induction false} InsertAscends<T>(le: (T, T) -> bool, xs: seq<T>, x: T)
    requires TotalPreorder(le, xs + [x]) && Ascending(le, xs)
    ensures Ascending(le, Insert(le, xs, x))
  {
    if xs == [] {
    } else if le(xs[|xs|-1], x) {
    } else {
      var front, last := xs[..|xs|-1], xs[|xs|-1];
      PreorderOfMembers(le, xs + [x], front + [x]);
      InsertAscends(le, front, x);
      InsertPermutes(le, front, x);
      MembersAfter(Insert(le, front, x), front, x);
      GreatestAppended(le, Insert(le, front, x), last);
    }
  }

  lemma GreatestAppended<T>(le: (T, T) -> bool, xs: seq<T>, x: T)
    requires Ascending(le, xs) && forall y :: y in xs ==> le(y, x)
    ensures Ascending(le, xs + [x])
  {}

  lemma PreorderOfMembers<T>(le: (T, T) -> bool, xs: seq<T>, ys: seq<T>)
    requires TotalPreorder(le, xs) && forall y :: y in ys ==> y in xs
    ensures TotalPreorder(le, ys)
  {}

  lemma {:induction false} SortedIsSorted<T>(le: (T, T) -> bool, xs: seq<T>)
    requires TotalPreorder(le, xs)
    ensures Ascending(le, Sorted(le, xs)) && multiset(Sorted(le, xs)) == multiset(xs) && |Sorted(le, xs)| == |xs|
  {
    if xs != [] {
      var n := |xs| - 1;
      PreorderOfMembers(le, xs, xs[..n]);
      SortedIsSorted(le, xs[..n]);
      var front := Sorted(le, xs[..n]);
      MembersAfter(front + [xs[n]], xs[..n], xs[n]);
      PreorderOfMembers(le, xs, front + [xs[n]]);
      InsertAscends(le, front, xs[n]);
      InsertPermutes(le, Sorted(le, xs[..n]), xs[n]);
      MultisetRemoveLast(xs);
      SameLength(Sorted(le, xs), xs);
    }
  }

  lemma SameLength<T>(xs: seq<T>, ys: seq<T>)
    requires multiset(xs) == multiset(ys)
    ensures |xs| == |ys|
  {
    assert |multiset(xs)| == |xs| && |multiset(ys)| == |ys|;
  }
}
