/** Lists: what is made of each element, lists without repetition, and what the size of the set of their
    elements says. */
module Distinct {

  /** The list of what `f` gives for each element. */
  function Mapped<A, B>(f: A -> B, xs: seq<A>): (r: seq<B>)
    ensures |r| == |xs| && forall i | 0 <= i < |r| :: r[i] == f(xs[i])
  {
    seq(|xs|, i requires 0 <= i < |xs| => f(xs[i]))
  }

  ghost predicate NoRepeat<T(!new)>(xs: seq<T>) {
    forall i, j | 0 <= i < j < |xs| :: xs[i] != xs[j]
  }

  ghost function Elements<T(!new)>(xs: seq<T>): set<T> {
    set x | x in xs
  }

  lemma ElementsSnoc<T(!new)>(xs: seq<T>, x: T)
    ensures Elements(xs + [x]) == Elements(xs) + {x}
  {
  }

  lemma NoRepeatSnoc<T(!new)>(xs: seq<T>, x: T)
    ensures NoRepeat(xs + [x]) <==> NoRepeat(xs) && x !in xs
  {
    var all := xs + [x];
    assert all[|xs|] == x && forall i | 0 <= i < |xs| :: all[i] == xs[i];
    if NoRepeat(all) {
      assert forall i, j | 0 <= i < j < |xs| :: xs[i] == all[i] && xs[j] == all[j];
    }
  }

  /** A list has at most as many different elements as places, and as many exactly if none repeats. */
  lemma {:induction false} ElementsSize<T(!new)>(xs: seq<T>)
    ensures |Elements(xs)| <= |xs|
    ensures |Elements(xs)| == |xs| <==> NoRepeat(xs)
  {
    if xs != [] {
      var front, last := xs[..|xs| - 1], xs[|xs| - 1];
      assert xs == front + [last];
      ElementsSize(front);
      ElementsSnoc(front, last);
      NoRepeatSnoc(front, last);
      if last in front {
        assert Elements(front) + {last} == Elements(front);
      }
    }
  }

  lemma SubsetOfSameSize<T>(a: set<T>, b: set<T>)
    requires a <= b && |a| == |b|
    ensures a == b
  {
    assert |b - a| == 0;
  }

  /** Pigeonhole: if every element of a list without repetition is in a list that is no longer, then
      every element of that list is in the first one, and it has no repetition either. */
  lemma Pigeonhole<T(!new)>(xs: seq<T>, ys: seq<T>)
    requires NoRepeat(xs) && |ys| <= |xs| && forall x | x in xs :: x in ys
    ensures NoRepeat(ys) && |ys| == |xs|
    ensures forall y | y in ys :: y in xs
  {
    ElementsSize(xs);
    ElementsSize(ys);
    assert Elements(xs) <= Elements(ys);
    SubsetSize(Elements(xs), Elements(ys));
    SubsetOfSameSize(Elements(xs), Elements(ys));
    forall y | y in ys ensures y in xs {
      assert y in Elements(ys);
    }
  }

  lemma SubsetSize<T>(a: set<T>, b: set<T>)
    requires a <= b
    ensures |a| <= |b|
  {
    assert b == a + (b - a);
  }

  /** A list without repetition holds each of its elements once. */
  lemma {:induction false} CountedOnce<T(!new)>(xs: seq<T>, x: T)
    requires NoRepeat(xs)
    ensures multiset(xs)[x] == if x in xs then 1 else 0
  {
    if xs != [] {
      var front, last := xs[..|xs| - 1], xs[|xs| - 1];
      assert xs == front + [last];
      NoRepeatSnoc(front, last);
      CountedOnce(front, x);
    }
  }

  /** Two lists without repetition are permutations of each other exactly if they have the same elements. */
  lemma PermutationIff<T(!new)>(xs: seq<T>, ys: seq<T>)
    requires NoRepeat(xs)
    ensures multiset(xs) == multiset(ys) <==> NoRepeat(ys) && Elements(xs) == Elements(ys)
  {
    if multiset(xs) == multiset(ys) {
      forall x ensures x in xs <==> x in ys {
        assert x in multiset(xs) <==> x in multiset(ys);
      }
      ElementsSize(xs);
      ElementsSize(ys);
      assert Elements(xs) == Elements(ys);
      assert |multiset(xs)| == |multiset(ys)|;
    } else if NoRepeat(ys) && Elements(xs) == Elements(ys) {
      forall x ensures multiset(xs)[x] == multiset(ys)[x] {
        CountedOnce(xs, x);
        CountedOnce(ys, x);
        assert x in xs <==> x in Elements(xs);
        assert x in ys <==> x in Elements(ys);
      }
    }
  }
}
