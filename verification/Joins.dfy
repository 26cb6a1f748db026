/** Merging in any order, with any repetition: one law for every merge that is
    commutative, associative and idempotent on some family of states. */
module Joins {

  ghost predicate MergeLaws<T(!new)>(family: T -> bool, merge: (T, T) -> T) {
    && (forall x, y | family(x) && family(y) :: family(merge(x, y)) && merge(x, y) == merge(y, x))
    && (forall x, y, z | family(x) && family(y) && family(z) :: merge(merge(x, y), z) == merge(x, merge(y, z)))
    && (forall x | family(x) :: merge(x, x) == x)
  }

  /** Start from the first state and merge the others, one after the other. */
  function MergeAll<T>(merge: (T, T) -> T, xs: seq<T>): T
    requires xs != []
  {
    var n := |xs| - 1;
    if n == 0 then xs[0] else merge(MergeAll(merge, xs[..n]), xs[n])
  }

  ghost predicate AllIn<T(!new)>(family: T -> bool, xs: seq<T>) {
    forall x | x in xs :: family(x)
  }

  lemma {:induction false} MergeAllInFamily<T(!new)>(family: T -> bool, merge: (T, T) -> T, xs: seq<T>)
    requires MergeLaws(family, merge) && AllIn(family, xs) && xs != []
    ensures family(MergeAll(merge, xs))
  {
    var n := |xs| - 1;
    assert xs[n] in xs;
    if n > 0 {
      MergeAllInFamily(family, merge, xs[..n]);
    }
  }

  /** A state that took part changes nothing when it is merged again. */
  lemma {:induction false} Absorbs<T(!new)>(family: T -> bool, merge: (T, T) -> T, xs: seq<T>, x: T)
    requires MergeLaws(family, merge) && AllIn(family, xs) && x in xs
    ensures merge(MergeAll(merge, xs), x) == MergeAll(merge, xs)
  {
    var n := |xs| - 1;
    var last := xs[n];
    assert last in xs;
    if n > 0 {
      var rest := MergeAll(merge, xs[..n]);
      MergeAllInFamily(family, merge, xs[..n]);
      if x == last {
        assert merge(merge(rest, last), last) == merge(rest, merge(last, last));
      } else {
        assert x in xs[..n];
        Absorbs(family, merge, xs[..n], x);
        assert merge(merge(rest, last), x) == merge(rest, merge(last, x));
        assert merge(rest, merge(x, last)) == merge(merge(rest, x), last);
      }
    }
  }

  lemma {:induction false} AbsorbsAll<T(!new)>(family: T -> bool, merge: (T, T) -> T, xs: seq<T>, ys: seq<T>)
    requires MergeLaws(family, merge) && AllIn(family, xs) && xs != [] && ys != []
    requires forall y | y in ys :: y in xs
    ensures merge(MergeAll(merge, xs), MergeAll(merge, ys)) == MergeAll(merge, xs)
  {
    var n := |ys| - 1;
    assert ys[n] in ys;
    Absorbs(family, merge, xs, ys[n]);
    if n > 0 {
      AbsorbsAll(family, merge, xs, ys[..n]);
      MergeAllInFamily(family, merge, xs);
      MergeAllInFamily(family, merge, ys[..n]);
      var all, rest := MergeAll(merge, xs), MergeAll(merge, ys[..n]);
      assert merge(all, merge(rest, ys[n])) == merge(merge(all, rest), ys[n]);
    }
  }

  /** The result of merging depends only on which states took part. */
  lemma OrderFree<T(!new)>(family: T -> bool, merge: (T, T) -> T, xs: seq<T>, ys: seq<T>)
    requires MergeLaws(family, merge) && AllIn(family, xs) && xs != []
    requires forall x :: x in xs <==> x in ys
    ensures ys != [] && MergeAll(merge, xs) == MergeAll(merge, ys)
  {
    assert xs[0] in ys;
    AbsorbsAll(family, merge, xs, ys);
    AbsorbsAll(family, merge, ys, xs);
    MergeAllInFamily(family, merge, xs);
    MergeAllInFamily(family, merge, ys);
  }
}
