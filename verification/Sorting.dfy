/** Stable sorting as a value: what `sorted` returns. */
module Sorting {

  /** A strict order that compares any two different elements. */
  ghost predicate IsTotalOrder<T(!new)>(lt: (T, T) -> bool) {
    && (forall x :: !lt(x, x))
    && (forall x, y, z :: lt(x, y) && lt(y, z) ==> lt(x, z))
    && (forall x, y :: x == y || lt(x, y) || lt(y, x))
  }

  /** A strict order; elements it does not compare are tied. */
  ghost predicate IsWeakOrder<T(!new)>(lt: (T, T) -> bool) {
    && (forall x :: !lt(x, x))
    && (forall x, y, z :: lt(x, y) && lt(y, z) ==> lt(x, z))
    && (forall x, y, z :: lt(x, y) ==> lt(x, z) || lt(z, y))
  }

  ghost predicate Ascending<T(!new)>(xs: seq<T>, lt: (T, T) -> bool) {
    forall i, j | 0 <= i < j < |xs| :: !lt(xs[j], xs[i])
  }

  function Insert<T>(x: T, ys: seq<T>, lt: (T, T) -> bool): seq<T> {
    if ys == [] then [x]
    else if lt(ys[0], x) then [ys[0]] + Insert(x, ys[1..], lt)
    else [x] + ys
  }

  function Sort<T>(xs: seq<T>, lt: (T, T) -> bool): seq<T> {
    if xs == [] then [] else Insert(xs[0], Sort(xs[1..], lt), lt)
  }

  lemma {:induction false} InsertPermutes<T>(x: T, ys: seq<T>, lt: (T, T) -> bool)
    ensures multiset(Insert(x, ys, lt)) == multiset{x} + multiset(ys)
    ensures |Insert(x, ys, lt)| == |ys| + 1
  {
    if ys != [] {
      assert ys == [ys[0]] + ys[1..];
      if lt(ys[0], x) {
        InsertPermutes(x, ys[1..], lt);
      }
    }
  }

  lemma {:induction false} SortPermutes<T>(xs: seq<T>, lt: (T, T) -> bool)
    ensures multiset(Sort(xs, lt)) == multiset(xs) && |Sort(xs, lt)| == |xs|
  {
    if xs != [] {
      SortPermutes(xs[1..], lt);
      InsertPermutes(xs[0], Sort(xs[1..], lt), lt);
      assert xs == [xs[0]] + xs[1..];
    }
  }

  lemma {:induction false} InsertKeepsOrder<T(!new)>(x: T, ys: seq<T>, lt: (T, T) -> bool)
    requires IsWeakOrder(lt) && Ascending(ys, lt)
    ensures Ascending(Insert(x, ys, lt), lt)
  {
    if ys != [] && lt(ys[0], x) {
      var rest := Insert(x, ys[1..], lt);
      InsertKeepsOrder(x, ys[1..], lt);
      InsertPermutes(x, ys[1..], lt);
      forall z <- rest ensures !lt(z, ys[0]) {
        assert z in multiset(rest);
        if z != x {
          assert z in ys[1..];
        }
      }
    } else if ys != [] {
      forall i | 0 <= i < |ys| ensures !lt(ys[i], x) {
        assert i > 0 ==> !lt(ys[i], ys[0]);
      }
    }
  }

  lemma {:induction false} SortAscends<T(!new)>(xs: seq<T>, lt: (T, T) -> bool)
    requires IsWeakOrder(lt)
    ensures Ascending(Sort(xs, lt), lt)
  {
    if xs != [] {
      SortAscends(xs[1..], lt);
      InsertKeepsOrder(xs[0], Sort(xs[1..], lt), lt);
    }
  }

  lemma TotalIsWeak<T(!new)>(lt: (T, T) -> bool)
    requires IsTotalOrder(lt)
    ensures IsWeakOrder(lt)
  {
  }

  lemma FirstsAgree<T(!new)>(xs: seq<T>, ys: seq<T>, lt: (T, T) -> bool)
    requires IsTotalOrder(lt) && Ascending(xs, lt) && Ascending(ys, lt)
    requires multiset(xs) == multiset(ys) && xs != [] && ys != []
    ensures xs[0] == ys[0]
  {
    assert xs[0] in multiset(ys) && ys[0] in multiset(xs);
    var i :| 0 <= i < |ys| && ys[i] == xs[0];
    var j :| 0 <= j < |xs| && xs[j] == ys[0];
    assert i > 0 ==> !lt(ys[i], ys[0]);
    assert j > 0 ==> !lt(xs[j], xs[0]);
  }

  /** Under a total order an ascending arrangement is unique. */
  lemma {:induction false} AscendingIsUnique<T(!new)>(xs: seq<T>, ys: seq<T>, lt: (T, T) -> bool)
    requires IsTotalOrder(lt) && Ascending(xs, lt) && Ascending(ys, lt)
    requires multiset(xs) == multiset(ys)
    ensures xs == ys
  {
    assert |xs| == |multiset(xs)| == |multiset(ys)| == |ys|;
    if xs != [] {
      FirstsAgree(xs, ys, lt);
      assert xs == [xs[0]] + xs[1..] && ys == [ys[0]] + ys[1..];
      assert multiset(xs[1..]) == multiset(xs) - multiset{xs[0]};
      assert multiset(ys[1..]) == multiset(ys) - multiset{ys[0]};
      AscendingIsUnique(xs[1..], ys[1..], lt);
    }
  }

  /** Sorting forgets the input order. */
  lemma SortForgetsOrder<T(!new)>(xs: seq<T>, ys: seq<T>, lt: (T, T) -> bool)
    requires IsTotalOrder(lt) && multiset(xs) == multiset(ys)
    ensures Sort(xs, lt) == Sort(ys, lt)
  {
    TotalIsWeak(lt);
    SortPermutes(xs, lt);
    SortPermutes(ys, lt);
    SortAscends(xs, lt);
    SortAscends(ys, lt);
    AscendingIsUnique(Sort(xs, lt), Sort(ys, lt), lt);
  }

  /** A list without repetitions stays one when rearranged. */
  lemma DistinctForgetsOrder<T>(xs: seq<T>, ys: seq<T>)
    requires multiset(xs) == multiset(ys)
    requires forall i, j | 0 <= i < j < |xs| :: xs[i] != xs[j]
    ensures forall i, j | 0 <= i < j < |ys| :: ys[i] != ys[j]
  {
    NoRepeats(xs);
    RepeatsShow(ys);
  }

  lemma {:induction false} NoRepeats<T>(xs: seq<T>)
    requires forall i, j | 0 <= i < j < |xs| :: xs[i] != xs[j]
    ensures forall x <- xs :: multiset(xs)[x] <= 1
  {
    if xs != [] {
      NoRepeats(xs[1..]);
      assert xs == [xs[0]] + xs[1..];
      assert xs[0] !in xs[1..];
    }
  }

  lemma RepeatsShow<T>(xs: seq<T>)
    requires forall x <- multiset(xs) :: multiset(xs)[x] <= 1
    ensures forall i, j | 0 <= i < j < |xs| :: xs[i] != xs[j]
  {
    forall i, j | 0 <= i < j < |xs| ensures xs[i] != xs[j] {
      assert xs == xs[..j] + xs[j..];
      assert xs[..j][i] == xs[i] && xs[j..][0] == xs[j];
      assert multiset(xs) == multiset(xs[..j]) + multiset(xs[j..]);
      assert xs[i] in multiset(xs[..j]) && xs[j] in multiset(xs[j..]);
      assert xs[i] in multiset(xs) && multiset(xs)[xs[i]] <= 1;
    }
  }
}
