/** Grouping a list by label in a dictionary of lists, and the selections it holds. */
module Grouping {
  import opened Sums

  // ----- selecting by label -----

  /** The entries whose label is l, in order. */
  function Pick<L(==), T>(labels: seq<L>, xs: seq<T>, l: L): seq<T>
    requires |labels| == |xs|
  {
    if xs == [] then []
    else
      var n := |xs| - 1;
      if labels[n] == l then Pick(labels[..n], xs[..n], l) + [xs[n]] else Pick(labels[..n], xs[..n], l)
  }

  /** The entries whose label is not l, in order. */
  function Drop<L(==), T>(labels: seq<L>, xs: seq<T>, l: L): (rest: seq<T>)
    requires |labels| == |xs|
    ensures |rest| <= |xs|
  {
    if xs == [] then []
    else
      var n := |xs| - 1;
      if labels[n] == l then Drop(labels[..n], xs[..n], l) else Drop(labels[..n], xs[..n], l) + [xs[n]]
  }

  lemma {:induction false} PickLength<L, T, U>(labels: seq<L>, xs: seq<T>, ys: seq<U>, l: L)
    requires |labels| == |xs| == |ys|
    ensures |Pick(labels, xs, l)| == |Pick(labels, ys, l)|
    ensures |Drop(labels, xs, l)| == |Drop(labels, ys, l)|
    ensures |Pick(labels, xs, l)| + |Drop(labels, xs, l)| == |xs|
  {
    if xs != [] {
      var n := |xs| - 1;
      PickLength(labels[..n], xs[..n], ys[..n], l);
    }
  }

  lemma {:induction false} PickSome<L, T>(labels: seq<L>, xs: seq<T>, i: nat)
    requires |labels| == |xs| && i < |xs|
    ensures |Pick(labels, xs, labels[i])| > 0
  {
    var n := |xs| - 1;
    if i < n {
      assert labels[..n][i] == labels[i];
      PickSome(labels[..n], xs[..n], i);
    }
  }

  /** A value that all entries with label l have is the value of every picked entry. */
  lemma {:induction false} PickConstant<L, T>(labels: seq<L>, xs: seq<T>, l: L, c: T)
    requires |labels| == |xs| && forall i :: 0 <= i < |xs| && labels[i] == l ==> xs[i] == c
    ensures forall k :: 0 <= k < |Pick(labels, xs, l)| ==> Pick(labels, xs, l)[k] == c
  {
    if xs != [] {
      PickConstant(labels[..|xs|-1], xs[..|xs|-1], l, c);
    }
  }

  /** Dropping one label leaves the selection of every other label alone. */
  lemma {:induction false} PickAfterDrop<L, T>(labels: seq<L>, xs: seq<T>, l: L, k: L)
    requires |labels| == |xs| && k != l
    ensures |Drop(labels, labels, l)| == |Drop(labels, xs, l)|
    ensures Pick(Drop(labels, labels, l), Drop(labels, xs, l), k) == Pick(labels, xs, k)
  {
    PickLength(labels, labels, xs, l);
    if xs != [] {
      var n := |xs| - 1;
      PickAfterDrop(labels[..n], xs[..n], l, k);
      if labels[n] != l {
        DropAppended(Drop(labels[..n], labels[..n], l), labels[n]);
        DropAppended(Drop(labels[..n], xs[..n], l), xs[n]);
      }
    }
  }

  lemma {:induction false} DropKeepsOthers<L>(labels: seq<L>, l: L)
    ensures forall k :: k in Drop(labels, labels, l) ==> k in labels && k != l
  {
    if labels != [] {
      DropKeepsOthers(labels[..|labels|-1], l);
      SplitLast(labels);
    }
  }

  lemma DropLabel<L, T>(labels: seq<L>, xs: seq<T>, ys: seq<T>, l: L)
    requires |labels| == |xs| == |ys| && labels != [] && l == labels[0]
    ensures |Drop(labels, labels, l)| == |Drop(labels, xs, l)| == |Drop(labels, ys, l)| < |labels|
    ensures forall k :: k in Drop(labels, labels, l) ==> k in labels && k != l
  {
    PickLength(labels, labels, xs, l);
    PickLength(labels, labels, ys, l);
    PickSome(labels, labels, 0);
    DropKeepsOthers(labels, l);
  }

  /** The dictionary after i entries: one list per label met, holding its entries in order. */
  ghost predicate Grouped<L(!new), T>(grouped: map<L, seq<T>>, labels: seq<L>, values: seq<T>, i: nat)
    requires |labels| == |values| && i <= |labels|
  {
    && (forall l :: l in grouped <==> l in labels[..i])
    && (forall l :: l in grouped ==> grouped[l] == Pick(labels[..i], values[..i], l))
  }

  lemma GroupedGrows<L(!new), T>(grouped: map<L, seq<T>>, labels: seq<L>, values: seq<T>, i: nat)
    requires |labels| == |values| && i < |labels| && Grouped(grouped, labels, values, i)
    ensures var key := labels[i];
      Grouped(grouped[key := (if key in grouped then grouped[key] else []) + [values[i]]], labels, values, i + 1)
  {
    hide Pick;
    assert labels[..i+1] == labels[..i] + [labels[i]];
    var key := labels[i];
    var next := grouped[key := (if key in grouped then grouped[key] else []) + [values[i]]];
    forall l | l in next ensures next[l] == Pick(labels[..i+1], values[..i+1], l) {
      PickGrows(labels, values, i, l);
      if l == key && key !in grouped {
        PickNone(labels[..i], values[..i], key);
      }
    }
  }

  lemma GroupedWhole<L(!new), T>(grouped: map<L, seq<T>>, labels: seq<L>, values: seq<T>)
    requires |labels| == |values| && Grouped(grouped, labels, values, |labels|)
    ensures forall i :: 0 <= i < |labels| ==>
        labels[i] in grouped && grouped[labels[i]] == Pick(labels, values, labels[i])
  {
    assert labels[..|labels|] == labels && values[..|labels|] == values;
  }

  ghost function PickNext<L, T>(labels: seq<L>, values: seq<T>, i: nat, l: L): seq<T>
    requires |labels| == |values| && i < |labels|
  {
    if labels[i] == l then Pick(labels[..i], values[..i], l) + [values[i]] else Pick(labels[..i], values[..i], l)
  }

  lemma PickGrows<L, T>(labels: seq<L>, values: seq<T>, i: nat, l: L)
    requires |labels| == |values| && i < |labels|
    ensures Pick(labels[..i+1], values[..i+1], l) == PickNext(labels, values, i, l)
  {
    assert labels[..i+1][..i] == labels[..i] && values[..i+1][..i] == values[..i];
  }

  lemma {:induction false} PickNone<L, T>(labels: seq<L>, xs: seq<T>, l: L)
    requires |labels| == |xs| && l !in labels
    ensures Pick(labels, xs, l) == []
  {
    if xs != [] {
      SplitLast(labels);
      PickNone(labels[..|xs|-1], xs[..|xs|-1], l);
    }
  }
}
