/** Cardinality facts about finite sets, and lists of their members. */
module Counting {
  lemma {:induction false} SubsetSize<T>(a: set<T>, b: set<T>)
    requires a <= b
    ensures |a| <= |b|
    decreases a
  {
    if a != {} {
      var x :| x in a;
      SubsetSize(a - {x}, b - {x});
    }
  }

  /** A function that never maps two members of a set to one value keeps the set's size. */
  lemma {:induction false} InjectiveImageSize<T(!new), U>(a: set<T>, f: T --> U, image: set<U>)
    requires forall x | x in a :: f.requires(x)
    requires image == set x | x in a :: f(x)
    requires forall x, y | x in a && y in a && f(x) == f(y) :: x == y
    ensures |image| == |a|
    decreases a
  {
    if a == {} {
      assert image == {};
    } else {
      var x :| x in a;
      var rest := a - {x};
      assert image - {f(x)} == set y | y in rest :: f(y);
      InjectiveImageSize(rest, f, image - {f(x)});
    }
  }

  /** Taking `x` off the items still to be looked at adds at most `x` to those already looked at. */
  lemma RemainderStep<T>(items: set<T>, rest: set<T>, x: T)
    requires x in rest
    ensures |items - (rest - {x})| == |items - rest| + if x in items then 1 else 0
  {
    assert items - (rest - {x}) == (items - rest) + (if x in items then {x} else {});
  }

  /** The members of a finite set, each once. */
  ghost predicate Lists<K(!new)>(order: seq<K>, items: set<K>) {
    && (forall x :: x in order <==> x in items)
    && forall i, j | 0 <= i < j < |order| :: order[i] != order[j]
  }

  lemma {:induction false} ListsSize<K(!new)>(order: seq<K>, items: set<K>)
    requires Lists(order, items)
    ensures |order| == |items|
    decreases |order|
  {
    if order == [] {
      assert items == {};
    } else {
      var n := |order| - 1;
      assert order == order[..n] + [order[n]];
      ListsSize(order[..n], items - {order[n]});
    }
  }
}
