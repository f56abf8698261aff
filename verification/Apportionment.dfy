/** How close apportionment comes to the exact quotas. */
module Apportionment {
  import opened Text
  import opened Sorting
  import opened Strata

  /* ----- totals do not depend on the order ----- */

  lemma {:induction false} TotalOfInsert(m: map<string, nat>, x: string, ys: seq<string>, lt: (string, string) -> bool)
    requires x in m && forall a <- ys :: a in m
    ensures forall a <- Insert(x, ys, lt) :: a in m
    ensures Total(m, Insert(x, ys, lt)) == m[x] + Total(m, ys)
  {
    if ys != [] && lt(ys[0], x) {
      TotalOfInsert(m, x, ys[1..], lt);
    }
  }

  lemma {:induction false} TotalOfSort(m: map<string, nat>, xs: seq<string>, lt: (string, string) -> bool)
    requires forall a <- xs :: a in m
    ensures forall a <- Sort(xs, lt) :: a in m
    ensures Total(m, Sort(xs, lt)) == Total(m, xs)
  {
    if xs != [] {
      TotalOfSort(m, xs[1..], lt);
      TotalOfInsert(m, xs[0], Sort(xs[1..], lt), lt);
    }
  }

  lemma NamesAreTotallyOrdered()
    ensures IsTotalOrder(Less)
  {
    forall x: string, y: string, z: string
      ensures !Less(x, x) && (Less(x, y) && Less(y, z) ==> Less(x, z)) && (x == y || Less(x, y) || Less(y, x))
    {
      LessIsStrict(x);
      LessTotal(x, y);
      if Less(x, y) && Less(y, z) {
        LessTransitive(x, y, z);
      }
    }
  }

  lemma TotalForgetsOrder(m: map<string, nat>, xs: seq<string>, ys: seq<string>)
    requires multiset(xs) == multiset(ys) && forall a <- xs :: a in m
    ensures forall a <- ys :: a in m
    ensures Total(m, xs) == Total(m, ys)
  {
    forall a <- ys ensures a in m {
      assert a in multiset(xs);
    }
    NamesAreTotallyOrdered();
    SortForgetsOrder(xs, ys, Less);
    TotalOfSort(m, xs, Less);
    TotalOfSort(m, ys, Less);
  }

  lemma RemainderOrderIsTotal(m: map<string, nat>)
    ensures IsTotalOrder(ByRemainder(m))
  {
    NamesAreTotallyOrdered();
  }

  /* ----- the leftover is paid for by remainders ----- */

  lemma Distribute(x: int, a: int, b: int)
    ensures x * (a + b) == x * a + x * b
  {
  }

  /** Division with remainder, for every arm. */
  ghost predicate Divided(num: map<string, nat>, floors: map<string, nat>, rems: map<string, nat>, size: nat, whole: nat) {
    && floors.Keys == num.Keys && rems.Keys == num.Keys
    && forall a <- num :: size * num[a] == whole * floors[a] + rems[a] && rems[a] < whole
  }

  lemma QuotasAreDivided(size: nat, shares: Shares)
    requires shares.Valid()
    ensures Divided(shares.num, Floors(size, shares), Remainders(size, shares), size, shares.whole)
  {
  }

  /** Whole parts and remainders make up the exact quotas. */
  lemma {:induction false} QuotasAddUp(num: map<string, nat>, floors: map<string, nat>, rems: map<string, nat>,
                                       size: nat, whole: nat, xs: seq<string>)
    requires Divided(num, floors, rems, size, whole) && forall a <- xs :: a in num
    ensures size * Total(num, xs) == whole * Total(floors, xs) + Total(rems, xs)
  {
    if xs != [] {
      QuotasAddUp(num, floors, rems, size, whole, xs[1..]);
      Distribute(size, num[xs[0]], Total(num, xs[1..]));
      Distribute(whole, floors[xs[0]], Total(floors, xs[1..]));
    }
  }

  /** Each remainder is below the whole. */
  lemma {:induction false} TotalIsBelow(m: map<string, nat>, xs: seq<string>, bound: nat)
    requires forall a <- xs :: a in m && m[a] < bound
    ensures Total(m, xs) <= |xs| * bound
    ensures xs != [] ==> Total(m, xs) < |xs| * bound
  {
    if xs != [] {
      TotalIsBelow(m, xs[1..], bound);
      assert |xs| * bound == (|xs| - 1) * bound + bound;
    }
  }

  lemma {:induction false} TotalOfZeros(m: map<string, nat>, xs: seq<string>)
    requires forall a <- xs :: a in m && m[a] == 0
    ensures Total(m, xs) == 0
  {
    if xs != [] {
      TotalOfZeros(m, xs[1..]);
    }
  }

  lemma ShareOfWhole(size: nat, whole: nat, floors: nat, rems: nat, arms: nat)
    requires whole > 0 && size * whole == whole * floors + rems && rems <= arms * whole
    ensures (size - floors) * whole == rems
    ensures 0 <= size - floors <= arms
  {
    var left := size - floors;
    assert left * whole == rems;
    assert left < 0 ==> left * whole < 0;
    assert left > arms ==> (left - arms) * whole > 0;
    assert (left - arms) * whole == left * whole - arms * whole;
  }

  lemma TooLittle(sum: nat, k: nat, left: nat, whole: nat)
    requires whole > 0 && k < left && sum <= k * whole
    ensures sum < left * whole
  {
    assert left * whole == k * whole + (left - k) * whole;
    assert (left - k) * whole > 0;
  }

  lemma RankedByRemainder(size: nat, shares: Shares)
    requires shares.Valid()
    ensures Ascending(Ranked(size, shares), ByRemainder(Remainders(size, shares)))
    ensures forall a <- Ranked(size, shares) :: a in shares.num
    ensures Total(Remainders(size, shares), Ranked(size, shares)) == Total(Remainders(size, shares), shares.arms)
  {
    var rems := Remainders(size, shares);
    FavouredAreArms(size, shares);
    RemainderOrderIsTotal(rems);
    TotalIsWeak(ByRemainder(rems));
    SortAscends(shares.arms, ByRemainder(rems));
    TotalOfSort(rems, shares.arms, ByRemainder(rems));
  }

  /** With shares that sum to one, the remainders pay exactly for the leftover. */
  lemma LeftoverIsPaidFor(size: nat, shares: Shares)
    requires shares.Valid() && shares.SumToOne()
    ensures Leftover(size, shares) * shares.whole == Total(Remainders(size, shares), shares.arms)
    ensures 0 <= Leftover(size, shares) <= |shares.arms|
  {
    var floors, rems := Floors(size, shares), Remainders(size, shares);
    QuotasAreDivided(size, shares);
    QuotasAddUp(shares.num, floors, rems, size, shares.whole, shares.arms);
    TotalIsBelow(rems, shares.arms, shares.whole);
    ShareOfWhole(size, shares.whole, Total(floors, shares.arms), Total(rems, shares.arms), |shares.arms|);
  }

  /** If the first `left` of a descending list did not all have a remainder, too little
      would be left to pay for them. */
  lemma PaidSlotsHaveRemainders(rems: map<string, nat>, ranked: seq<string>, left: nat, whole: nat, k: nat)
    requires forall a <- ranked :: a in rems && rems[a] < whole
    requires Ascending(ranked, ByRemainder(rems))
    requires Total(rems, ranked) == left * whole
    requires k < left <= |ranked|
    ensures rems[ranked[k]] > 0
  {
    if rems[ranked[k]] == 0 {
      assert ranked == ranked[..k] + ranked[k..];
      TotalSplits(rems, ranked[..k], ranked[k..]);
      forall a <- ranked[k..] ensures rems[a] == 0 {
        var j :| 0 <= j < |ranked[k..]| && ranked[k..][j] == a;
        assert j > 0 ==> !ByRemainder(rems)(ranked[k + j], ranked[k]);
      }
      TotalOfZeros(rems, ranked[k..]);
      TotalIsBelow(rems, ranked[..k], whole);
      TooLittle(Total(rems, ranked[..k]), k, left, whole);
    }
  }

  /** The leftover is never negative nor more than there are arms, and the arms that get one
      of it all have a remainder to be rounded up. */
  lemma LeftoverGoesToRemainders(size: nat, shares: Shares)
    requires shares.Valid() && shares.SumToOne()
    ensures |Favoured(size, shares)| == Leftover(size, shares)
    ensures forall a <- Favoured(size, shares) :: a in shares.num && Remainders(size, shares)[a] > 0
  {
    var left, rems, ranked := Leftover(size, shares), Remainders(size, shares), Ranked(size, shares);
    FavouredAreArms(size, shares);
    LeftoverIsPaidFor(size, shares);
    RankedByRemainder(size, shares);
    forall k | 0 <= k < left ensures rems[ranked[k]] > 0 {
      PaidSlotsHaveRemainders(rems, ranked, left, shares.whole, k);
    }
    assert Favoured(size, shares) == ranked[..left];
  }

  /** What rounding an arm's quota down drops, over the whole. */
  function Dropped(size: nat, shares: Shares, a: string): nat
    requires shares.Valid() && a in shares.num
  {
    size * shares.num[a] - size * shares.num[a] / shares.whole * shares.whole
  }

  lemma DroppedIsRemainder(size: nat, shares: Shares, a: string)
    requires shares.Valid() && a in shares.num
    ensures Remainders(size, shares)[a] == Dropped(size, shares, a)
  {
  }

  /** Largest remainder first: an arm that gets one more lost at least as much to rounding as
      any that does not, and on a tie has the smaller name. */
  lemma LargestRemaindersFirst(size: nat, shares: Shares, a: string, b: string)
    requires shares.Valid() && a in shares.num && b in shares.num
    requires a in Favoured(size, shares) && b !in Favoured(size, shares)
    ensures Dropped(size, shares, a) >= Dropped(size, shares, b)
    ensures Dropped(size, shares, a) == Dropped(size, shares, b) ==> Less(a, b)
  {
    var ranked, k := Ranked(size, shares), |Favoured(size, shares)|;
    FavouredAreArms(size, shares);
    RankedByRemainder(size, shares);
    assert Favoured(size, shares) == ranked[..k];
    assert b in multiset(ranked);
    var i :| 0 <= i < k && ranked[i] == a;
    var j :| 0 <= j < |ranked| && ranked[j] == b;
    assert j >= k ==> !ByRemainder(Remainders(size, shares))(b, a);
    DroppedIsRemainder(size, shares, a);
    DroppedIsRemainder(size, shares, b);
    LessTotal(a, b);
  }

  /* ----- the counts ----- */

  lemma {:induction false} BumpedOnce(m: map<string, nat>, xs: seq<string>, a: string)
    requires (forall x <- xs :: x in m) && a in m
    requires forall i, j | 0 <= i < j < |xs| :: xs[i] != xs[j]
    ensures a in Bumped(m, xs) && Bumped(m, xs)[a] == m[a] + (if a in xs then 1 else 0)
  {
    BumpedKeys(m, xs);
    if xs != [] {
      var n := |xs| - 1;
      assert xs == xs[..n] + [xs[n]];
      BumpedKeys(m, xs[..n]);
      BumpedOnce(m, xs[..n], a);
    }
  }

  lemma RankedIsDistinct(size: nat, shares: Shares)
    requires shares.Valid()
    ensures forall i, j | 0 <= i < j < |Ranked(size, shares)| :: Ranked(size, shares)[i] != Ranked(size, shares)[j]
  {
    FavouredAreArms(size, shares);
    DistinctForgetsOrder(shares.arms, Ranked(size, shares));
  }

  /** `count` is strictly within one of `quota / whole`, and exact when that is whole. */
  predicate WithinOne(count: int, quota: int, whole: nat) {
    && quota - whole < count * whole < quota + whole
    && (whole > 0 && quota % whole == 0 ==> count * whole == quota)
  }

  lemma RoundedIsWithinOne(quota: nat, floor: nat, rem: nat, whole: nat, count: nat)
    requires whole > 0 && quota == whole * floor + rem && rem == quota % whole
    requires count == floor || (count == floor + 1 && rem > 0)
    ensures WithinOne(count, quota, whole)
  {
    Distribute(whole, floor, 1);
  }

  /** Each arm's count is its quota rounded down, or up if it has a remainder and was
      favoured; so it is strictly within one of the exact quota. */
  lemma CountIsWithinOne(size: nat, shares: Shares, a: string)
    requires shares.Valid() && shares.SumToOne() && a in shares.num
    ensures a in Counts(size, shares)
    ensures WithinOne(Counts(size, shares)[a], size * shares.num[a], shares.whole)
  {
    CountIsFloorOrNext(size, shares, a);
    LeftoverGoesToRemainders(size, shares);
    var floor, rem := Floors(size, shares)[a], Remainders(size, shares)[a];
    assert rem == size * shares.num[a] % shares.whole;
    assert size * shares.num[a] == shares.whole * floor + rem by {
      QuotasAreDivided(size, shares);
    }
    RoundedIsWithinOne(size * shares.num[a], floor, rem, shares.whole, Counts(size, shares)[a]);
  }

  lemma CountIsFloorOrNext(size: nat, shares: Shares, a: string)
    requires shares.Valid() && a in shares.num
    ensures a in Counts(size, shares)
    ensures Counts(size, shares)[a] == Floors(size, shares)[a] + (if a in Favoured(size, shares) then 1 else 0)
  {
    FavouredAreArms(size, shares);
    RankedIsDistinct(size, shares);
    BumpedOnce(Floors(size, shares), Favoured(size, shares), a);
  }

  lemma {:induction false} BumpedTotal(m: map<string, nat>, xs: seq<string>, arms: seq<string>)
    requires (forall x <- xs :: x in m) && (forall a <- arms :: a in m)
    requires forall i, j | 0 <= i < j < |xs| :: xs[i] != xs[j]
    requires forall i, j | 0 <= i < j < |arms| :: arms[i] != arms[j]
    requires forall x <- xs :: x in arms
    ensures forall a <- arms :: a in Bumped(m, xs)
    ensures Total(Bumped(m, xs), arms) == Total(m, arms) + |xs|
  {
    BumpedKeys(m, xs);
    if xs != [] {
      var n := |xs| - 1;
      assert xs == xs[..n] + [xs[n]];
      BumpedKeys(m, xs[..n]);
      BumpedTotal(m, xs[..n], arms);
      TotalOfBump(Bumped(m, xs[..n]), arms, xs[n]);
    }
  }

  lemma {:induction false} TotalOfBump(m: map<string, nat>, arms: seq<string>, x: string)
    requires x in m && forall a <- arms :: a in m
    requires forall i, j | 0 <= i < j < |arms| :: arms[i] != arms[j]
    ensures Total(m[x := m[x] + 1], arms) == Total(m, arms) + (if x in arms then 1 else 0)
  {
    if arms != [] {
      assert arms == [arms[0]] + arms[1..];
      assert arms[0] !in arms[1..];
      TotalOfBump(m, arms[1..], x);
    }
  }

  lemma {:induction false} SpreadCounts(m: map<string, nat>, arms: seq<string>, a: string)
    requires forall x <- arms :: x in m
    requires forall i, j | 0 <= i < j < |arms| :: arms[i] != arms[j]
    ensures |Spread(m, arms)| == Total(m, arms)
    ensures multiset(Spread(m, arms))[a] == if a in arms then m[a] else 0
  {
    if arms != [] {
      var n := |arms| - 1;
      var last := arms[n];
      assert arms == arms[..n] + [last];
      SpreadCounts(m, arms[..n], a);
      TotalSplits(m, arms[..n], [last]);
      RepeatCounts(last, m[last], a);
    }
  }

  lemma {:induction false} RepeatCounts(x: string, n: nat, a: string)
    ensures multiset(Repeat(x, n))[a] == if a == x then n else 0
  {
    if n > 0 {
      RepeatCounts(x, n - 1, a);
    }
  }

  lemma AllCountsTogether(size: nat, shares: Shares)
    requires shares.Valid()
    ensures forall a <- shares.arms :: a in Counts(size, shares)
    ensures Total(Counts(size, shares), shares.arms) ==
            Total(Floors(size, shares), shares.arms) + |Favoured(size, shares)|
    ensures |Favoured(size, shares)| == SliceLength(Leftover(size, shares), |shares.arms|)
  {
    FavouredAreArms(size, shares);
    RankedIsDistinct(size, shares);
    BumpedTotal(Floors(size, shares), Favoured(size, shares), shares.arms);
  }

  lemma SliceTakesAll(k: int, n: nat)
    ensures SliceLength(k, n) == k <==> 0 <= k <= n
  {
  }

  /** The list dealt to a stratum has one arm for each member, whatever the shares, exactly
      when rounding down leaves between nothing and one slot per arm. */
  lemma DealFitsExactly(size: nat, shares: Shares)
    requires shares.Valid()
    ensures |Apportioned(size, shares)| == size <==> 0 <= Leftover(size, shares) <= |shares.arms|
  {
    AllCountsTogether(size, shares);
    SpreadCounts(Counts(size, shares), shares.arms, "");
    SliceTakesAll(Leftover(size, shares), |shares.arms|);
    assert Leftover(size, shares) == size - Total(Floors(size, shares), shares.arms);
  }

  /** With shares that sum to one it always does, and holds each arm its counted number of
      times, strictly within one of the exact quota. */
  lemma ApportionmentIsFair(size: nat, shares: Shares, a: string)
    requires shares.Valid() && shares.SumToOne() && a in shares.num
    ensures |Apportioned(size, shares)| == size
    ensures WithinOne(multiset(Apportioned(size, shares))[a], size * shares.num[a], shares.whole)
  {
    LeftoverIsPaidFor(size, shares);
    DealFitsExactly(size, shares);
    AppearsAsCounted(size, shares, a);
    CountIsWithinOne(size, shares, a);
  }

  lemma AppearsAsCounted(size: nat, shares: Shares, a: string)
    requires shares.Valid() && a in shares.num
    ensures a in Counts(size, shares) && multiset(Apportioned(size, shares))[a] == Counts(size, shares)[a]
  {
    AllCountsTogether(size, shares);
    SpreadCounts(Counts(size, shares), shares.arms, a);
  }

  lemma RearrangedIsValid(shares: Shares, arms: seq<string>)
    requires shares.Valid() && multiset(arms) == multiset(shares.arms)
    ensures shares.(arms := arms).Valid()
  {
    DistinctForgetsOrder(shares.arms, arms);
    forall a ensures a in shares.num <==> a in arms {
      assert a in multiset(arms) <==> a in multiset(shares.arms);
    }
  }

  /** Listing the arms in another order favours the same arms. */
  lemma FavouredForgetArmOrder(size: nat, shares: Shares, arms: seq<string>)
    requires shares.Valid() && shares.(arms := arms).Valid() && multiset(arms) == multiset(shares.arms)
    ensures Favoured(size, shares.(arms := arms)) == Favoured(size, shares)
  {
    var other := shares.(arms := arms);
    assert Ranked(size, other) == Ranked(size, shares) by {
      assert Remainders(size, other) == Remainders(size, shares);
      RemainderOrderIsTotal(Remainders(size, shares));
      SortForgetsOrder(arms, shares.arms, ByRemainder(Remainders(size, shares)));
    }
    assert Leftover(size, other) == Leftover(size, shares) by {
      assert Floors(size, other) == Floors(size, shares);
      TotalForgetsOrder(Floors(size, shares), arms, shares.arms);
    }
    assert |arms| == |multiset(arms)| == |shares.arms|;
  }

  /** So it changes no count. */
  lemma CountsForgetArmOrder(size: nat, shares: Shares, arms: seq<string>)
    requires shares.Valid() && multiset(arms) == multiset(shares.arms)
    ensures shares.(arms := arms).Valid()
    ensures Counts(size, shares.(arms := arms)) == Counts(size, shares)
  {
    RearrangedIsValid(shares, arms);
    FavouredForgetArmOrder(size, shares, arms);
    FavouredAreArms(size, shares);
    assert Floors(size, shares.(arms := arms)) == Floors(size, shares);
  }

  /* ----- the order of the slots ----- */

  /** The arms that get anything, in their order. */
  function Present(m: map<string, nat>, arms: seq<string>): seq<string> {
    if arms == [] then []
    else
      var a := arms[|arms| - 1];
      Present(m, arms[..|arms| - 1]) + (if a in m && m[a] > 0 then [a] else [])
  }

  /** Each element once, where it comes first. */
  function Firsts(xs: seq<string>): seq<string> {
    if xs == [] then []
    else
      var before := Firsts(xs[..|xs| - 1]);
      if xs[|xs| - 1] in before then before else before + [xs[|xs| - 1]]
  }

  lemma {:induction false} FirstsAfterRepeat(xs: seq<string>, a: string, n: nat)
    requires a !in Firsts(xs)
    ensures Firsts(xs + Repeat(a, n)) == Firsts(xs) + (if n > 0 then [a] else [])
  {
    if n == 0 {
      assert xs + Repeat(a, n) == xs;
    } else {
      var longer := xs + Repeat(a, n);
      assert longer[..|longer| - 1] == xs + Repeat(a, n - 1) && longer[|longer| - 1] == a;
      FirstsAfterRepeat(xs, a, n - 1);
    }
  }

  lemma {:induction false} PresentAreArms(m: map<string, nat>, arms: seq<string>)
    ensures forall a <- Present(m, arms) :: a in arms
  {
    if arms != [] {
      PresentAreArms(m, arms[..|arms| - 1]);
    }
  }

  /** The slots show which arms are present, and in which order. */
  lemma {:induction false} FirstsOfSpread(m: map<string, nat>, arms: seq<string>)
    requires forall i, j | 0 <= i < j < |arms| :: arms[i] != arms[j]
    ensures Firsts(Spread(m, arms)) == Present(m, arms)
  {
    if arms != [] {
      var before, a := arms[..|arms| - 1], arms[|arms| - 1];
      FirstsOfSpread(m, before);
      PresentAreArms(m, before);
      assert a !in before;
      FirstsAfterRepeat(Spread(m, before), a, if a in m then m[a] else 0);
    }
  }

  /** And nothing else decides them. */
  lemma {:induction false} SpreadOfPresent(m: map<string, nat>, arms: seq<string>)
    ensures Spread(m, Present(m, arms)) == Spread(m, arms)
  {
    if arms != [] {
      var before, a := arms[..|arms| - 1], arms[|arms| - 1];
      SpreadOfPresent(m, before);
      var kept := Present(m, before);
      if a in m && m[a] > 0 {
        assert (kept + [a])[..|kept|] == kept;
      } else {
        assert kept + [] == kept && Spread(m, before) + [] == Spread(m, before);
      }
    }
  }

  lemma SpreadsAgreeExactly(m: map<string, nat>, arms: seq<string>, others: seq<string>)
    requires forall i, j | 0 <= i < j < |arms| :: arms[i] != arms[j]
    requires forall i, j | 0 <= i < j < |others| :: others[i] != others[j]
    ensures Spread(m, arms) == Spread(m, others) <==> Present(m, arms) == Present(m, others)
  {
    FirstsOfSpread(m, arms);
    FirstsOfSpread(m, others);
    SpreadOfPresent(m, arms);
    SpreadOfPresent(m, others);
  }

  /** Listing the arms in another order leaves the dealt slots alone exactly when the arms that
      get any slot come in the same order in both lists. */
  lemma SlotsForgetArmOrderExactly(size: nat, shares: Shares, arms: seq<string>)
    requires shares.Valid() && multiset(arms) == multiset(shares.arms)
    ensures shares.(arms := arms).Valid()
    ensures Apportioned(size, shares.(arms := arms)) == Apportioned(size, shares) <==>
            Present(Counts(size, shares), arms) == Present(Counts(size, shares), shares.arms)
  {
    CountsForgetArmOrder(size, shares, arms);
    assert forall i, j | 0 <= i < j < |arms| :: arms[i] != arms[j];
    SpreadsAgreeExactly(Counts(size, shares), arms, shares.arms);
  }

  /** Two arms of equal share, swapped, are dealt the other way round. */
  lemma SlotsFollowArmOrder()
    ensures var shares := Shares(["a", "b"], map["a" := 1, "b" := 1], 2);
            var other := shares.(arms := ["b", "a"]);
            && shares.Valid() && other.Valid()
            && Apportioned(2, shares) == ["a", "b"] && Apportioned(2, other) == ["b", "a"]
  {
    var shares := Shares(["a", "b"], map["a" := 1, "b" := 1], 2);
    var other := shares.(arms := ["b", "a"]);
    assert shares.Valid() && other.Valid();
    BothGetOne(shares);
    BothGetOne(other);
    SpreadTwo(Counts(2, shares), "a", "b");
    SpreadTwo(Counts(2, other), "b", "a");
  }

  lemma BothGetOne(shares: Shares)
    requires shares.Valid() && |shares.arms| == 2 && shares.whole == 2
    requires forall a <- shares.arms :: shares.num[a] == 1
    ensures forall a <- shares.arms :: a in Counts(2, shares) && Counts(2, shares)[a] == 1
  {
    assert Total(shares.num, shares.arms[1..]) == 1;
    assert shares.SumToOne();
    forall a <- shares.arms ensures a in Counts(2, shares) && Counts(2, shares)[a] == 1 {
      CountIsWithinOne(2, shares, a);
    }
  }

  lemma SpreadTwo(m: map<string, nat>, a: string, b: string)
    requires a in m && b in m && m[a] == 1 && m[b] == 1
    ensures Spread(m, [a, b]) == [a, b]
  {
    assert [a, b][..1] == [a] && [a][..0] == [];
    assert Spread(m, []) == [];
    assert Repeat(a, 1) == [a] && Repeat(b, 1) == [b];
    assert Spread(m, [a]) == [a];
  }
}
