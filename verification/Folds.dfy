/** Folding a list into a state, one element after the other. */
module Folds {

  function Fold<S, T>(f: (S, T) -> S, s: S, xs: seq<T>): S {
    if xs == [] then s else f(Fold(f, s, xs[..|xs| - 1]), xs[|xs| - 1])
  }

  /** Two elements may always trade places. */
  ghost predicate Commutes<S(!new), T(!new)>(f: (S, T) -> S) {
    forall s, x, y :: f(f(s, x), y) == f(f(s, y), x)
  }

  lemma {:induction false} FoldConcat<S, T>(f: (S, T) -> S, s: S, xs: seq<T>, ys: seq<T>)
    ensures Fold(f, s, xs + ys) == Fold(f, Fold(f, s, xs), ys)
  {
    if ys == [] {
      assert xs + ys == xs;
    } else {
      var front := ys[..|ys| - 1];
      assert (xs + ys)[..|xs + ys| - 1] == xs + front;
      FoldConcat(f, s, xs, front);
    }
  }

  lemma FoldOne<S, T>(f: (S, T) -> S, s: S, x: T)
    ensures Fold(f, s, [x]) == f(s, x)
  {
    assert [x][..0] == [];
    assert Fold(f, s, []) == s;
  }

  /** With a commuting step, an element may come after the ones that follow it. */
  lemma {:induction false} FoldLater<S(!new), T(!new)>(f: (S, T) -> S, s: S, x: T, ys: seq<T>)
    requires Commutes(f)
    ensures Fold(f, f(s, x), ys) == f(Fold(f, s, ys), x)
  {
    if ys != [] {
      var front := ys[..|ys| - 1];
      FoldLater(f, s, x, front);
    }
  }

  /** An element of a list occurs in every permutation of it; without it the rest is a permutation too. */
  lemma TakeOut<T>(x: T, rest: seq<T>, ys: seq<T>) returns (before: seq<T>, after: seq<T>)
    requires multiset{x} + multiset(rest) == multiset(ys)
    ensures ys == (before + [x]) + after
    ensures multiset(before + after) == multiset(rest)
  {
    assert x in multiset(ys);
    var i :| 0 <= i < |ys| && ys[i] == x;
    before, after := ys[..i], ys[i + 1..];
    SplitMultiset(before, x, after);
    assert ys == (before + [x]) + after;
    assert multiset(rest) == (multiset{x} + multiset(rest)) - multiset{x};
  }

  lemma SplitMultiset<T>(before: seq<T>, x: T, after: seq<T>)
    ensures multiset((before + [x]) + after) - multiset{x} == multiset(before + after)
  {
    assert multiset((before + [x]) + after) == (multiset(before) + multiset{x}) + multiset(after);
  }

  lemma SameNothing<T>(ys: seq<T>)
    requires multiset(ys) == multiset([])
    ensures ys == []
  {
    assert |multiset(ys)| == |ys|;
  }

  /** With a commuting step, the order of the elements does not matter. */
  lemma {:induction false} FoldIgnoresOrder<S(!new), T(!new)>(f: (S, T) -> S, s: S, xs: seq<T>, ys: seq<T>)
    requires Commutes(f) && multiset(xs) == multiset(ys)
    ensures Fold(f, s, xs) == Fold(f, s, ys)
    decreases |xs|
  {
    if xs == [] {
      SameNothing(ys);
    } else {
      var front, x := xs[..|xs| - 1], xs[|xs| - 1];
      assert xs == front + [x];
      var before, after := TakeOut(x, front, ys);
      FoldIgnoresOrder(f, s, front, before + after);
      calc {
        Fold(f, s, xs);
        f(Fold(f, s, before + after), x);
        { FoldConcat(f, s, before, after); }
        f(Fold(f, Fold(f, s, before), after), x);
        { FoldLater(f, Fold(f, s, before), x, after); }
        Fold(f, f(Fold(f, s, before), x), after);
        { FoldOne(f, Fold(f, s, before), x); FoldConcat(f, s, before, [x]); }
        Fold(f, Fold(f, s, before + [x]), after);
        { FoldConcat(f, s, before + [x], after); }
        Fold(f, s, ys);
      }
    }
  }

  // ----- lists of lists

  /** The lists one after the other. */
  function Flat<T>(lists: seq<seq<T>>): seq<T> {
    if lists == [] then [] else lists[0] + Flat(lists[1..])
  }

  lemma FlatFirst<T>(first: seq<T>, a: seq<seq<T>>, b: seq<seq<T>>)
    requires Flat(a + b) == Flat(a) + Flat(b)
    ensures Flat([first] + (a + b)) == Flat([first] + a) + Flat(b)
  {
    assert ([first] + (a + b))[1..] == a + b && ([first] + a)[1..] == a;
    assert first + (Flat(a) + Flat(b)) == (first + Flat(a)) + Flat(b);
  }

  lemma {:induction false} FlatConcat<T>(a: seq<seq<T>>, b: seq<seq<T>>)
    ensures Flat(a + b) == Flat(a) + Flat(b)
  {
    if a == [] {
      assert a + b == b;
    } else {
      FlatConcat(a[1..], b);
      FlatFirst(a[0], a[1..], b);
      assert [a[0]] + a[1..] == a && [a[0]] + (a[1..] + b) == a + b;
    }
  }

  lemma FlatOne<T>(list: seq<T>)
    ensures Flat([list]) == list
  {
    assert [list][1..] == [];
    assert list + [] == list;
  }

  lemma FlatNext<T>(lists: seq<seq<T>>)
    requires lists != []
    ensures Flat(lists) == Flat(lists[..|lists| - 1]) + lists[|lists| - 1]
  {
    var front, last := lists[..|lists| - 1], lists[|lists| - 1];
    assert lists == front + [last];
    FlatConcat(front, [last]);
    FlatOne(last);
  }
}
