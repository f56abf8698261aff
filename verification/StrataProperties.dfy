/** What stratified assignment guarantees of a whole population. */
module StrataProperties {
  import opened Domain
  import opened Text
  import opened Sorting
  import opened Strata
  import opened Apportionment

  ghost predicate DistinctRefs(episodes: seq<(string, Paise)>) {
    forall i, j | 0 <= i < j < |episodes| :: episodes[i].0 != episodes[j].0
  }

  /* ----- strata are contiguous and even ----- */

  /** The first rank of stratum `s`. */
  function FirstRank(s: nat, n: nat, strata: nat): nat
    requires strata > 0
  {
    (s * n + strata - 1) / strata
  }

  lemma RankIsInRange(rank: nat, n: nat, strata: nat)
    requires rank < n && strata > 0
    ensures rank * strata / n < strata
    ensures StratumOfRank(rank, n, strata) == rank * strata / n
  {
    var x := rank * strata;
    Monotone(rank + 1, n, strata);
    assert (rank + 1) * strata == x + strata;
    DivisionBounds(x, n, x / n);
    BelowQuotient(x / n, n, strata);
  }

  lemma RankBounds(rank: nat, n: nat, strata: nat, s: nat)
    requires rank < n && strata > 0
    ensures StratumOfRank(rank, n, strata) == s <==> FirstRank(s, n, strata) <= rank < FirstRank(s + 1, n, strata)
  {
    RankIsInRange(rank, n, strata);
    CeilingBounds(s, n, strata, rank);
    CeilingBounds(s + 1, n, strata, rank);
    QuotientIs(rank * strata, n, s);
  }

  lemma Monotone(x: int, y: int, z: nat)
    ensures x <= y ==> x * z <= y * z
  {
  }

  lemma DivisionBounds(x: nat, n: nat, q: nat)
    requires n > 0 && q == x / n
    ensures q * n <= x < (q + 1) * n
  {
  }

  lemma BelowQuotient(q: nat, n: nat, strata: nat)
    requires n > 0 && q * n < n * strata
    ensures q < strata
  {
    Monotone(strata, q, n);
  }

  lemma QuotientIs(x: nat, n: nat, s: nat)
    requires n > 0
    ensures x / n == s <==> s * n <= x < (s + 1) * n
  {
    var q := x / n;
    DivisionBounds(x, n, q);
    Monotone(q + 1, s, n);
    Monotone(s + 1, q, n);
  }

  /** The ceiling of `s * n / strata` is the first rank at or past it. */
  lemma CeilingBounds(s: nat, n: nat, strata: nat, rank: nat)
    requires strata > 0
    ensures FirstRank(s, n, strata) <= rank <==> s * n <= rank * strata
    ensures s * n <= FirstRank(s, n, strata) * strata < s * n + strata
  {
    var c := FirstRank(s, n, strata);
    DivisionBounds(s * n + strata - 1, strata, c);
    Monotone(c, rank, strata);
    Monotone(rank + 1, c, strata);
  }

  /** The references of a stretch of ranks. */
  function Stretch(ordered: seq<(string, Paise)>, lo: nat, hi: nat): (r: seq<string>)
    requires lo <= hi <= |ordered|
    ensures |r| == hi - lo && forall i | 0 <= i < |r| :: r[i] == ordered[lo + i].0
  {
    seq(hi - lo, i requires 0 <= i < hi - lo => ordered[lo + i].0)
  }

  lemma {:induction false} DistinctRefsAreAllKept(ordered: seq<(string, Paise)>, strata: nat, k: nat)
    requires DistinctRefs(ordered) && k <= |ordered| && strata > 0
    ensures Refs(ordered, k) == Stretch(ordered, 0, k)
    ensures forall i | 0 <= i < k :: ordered[i].0 in StratumOf(ordered, strata, k) &&
              StratumOf(ordered, strata, k)[ordered[i].0] == StratumOfRank(i, |ordered|, strata)
  {
    if k > 0 {
      DistinctRefsAreAllKept(ordered, strata, k - 1);
      assert ordered[k - 1].0 !in Stretch(ordered, 0, k - 1);
      assert Stretch(ordered, 0, k) == Stretch(ordered, 0, k - 1) + [ordered[k - 1].0];
    }
  }

  function Cap(x: nat, k: nat): nat {
    if x < k then x else k
  }

  /** A bucket is one stretch of ranks. */
  lemma {:induction false} BucketIsStretch(ordered: seq<(string, Paise)>, stratum: map<string, nat>, s: nat, lo: nat, hi: nat, k: nat)
    requires lo <= hi && k <= |ordered|
    requires forall i | 0 <= i < |ordered| ::
               ordered[i].0 in stratum && (stratum[ordered[i].0] == s <==> lo <= i < hi)
    ensures Bucket(Stretch(ordered, 0, k), stratum, s) == Stretch(ordered, Cap(lo, k), Cap(hi, k))
  {
    if k > 0 {
      BucketIsStretch(ordered, stratum, s, lo, hi, k - 1);
      var refs := Stretch(ordered, 0, k);
      assert refs[..|refs| - 1] == Stretch(ordered, 0, k - 1) && refs[|refs| - 1] == ordered[k - 1].0;
    }
  }

  lemma RanksRise(s: nat, n: nat, strata: nat)
    requires strata > 0
    ensures FirstRank(s, n, strata) <= FirstRank(s + 1, n, strata)
  {
    CeilingBounds(s, n, strata, FirstRank(s + 1, n, strata));
    CeilingBounds(s + 1, n, strata, FirstRank(s + 1, n, strata));
    assert (s + 1) * n == s * n + n;
  }

  lemma RanksFitIn(s: nat, n: nat, strata: nat)
    requires strata > 0 && s <= strata
    ensures FirstRank(s, n, strata) <= n
  {
    CeilingBounds(s, n, strata, n);
    assert s * n <= strata * n;
  }

  /** Size times strata is strictly within `strata` of the population. */
  lemma StretchSize(s: nat, n: nat, strata: nat)
    requires strata > 0 && s < strata
    ensures var size := FirstRank(s + 1, n, strata) - FirstRank(s, n, strata);
            n - strata < size * strata < n + strata
  {
    var lo, hi := FirstRank(s, n, strata), FirstRank(s + 1, n, strata);
    CeilingBounds(s, n, strata, 0);
    CeilingBounds(s + 1, n, strata, 0);
    assert (s + 1) * n == s * n + n;
    assert (hi - lo) * strata == hi * strata - lo * strata;
  }

  lemma EvenSizes(a: nat, b: nat, n: nat, strata: nat)
    requires strata > 0
    requires n - strata < a * strata < n + strata && n - strata < b * strata < n + strata
    ensures -1 <= a - b <= 1
  {
    assert (a - b) * strata == a * strata - b * strata;
    Monotone(2, a - b, strata);
    Monotone(a - b, -2, strata);
  }

  /** The population as the allocation sees it: ranked, with each stratum's members. */
  function InOrder(episodes: seq<(string, Paise)>): seq<(string, Paise)> {
    Sort(episodes, ByAmount())
  }

  function StrataMap(episodes: seq<(string, Paise)>, strata: nat): map<string, nat>
    requires strata > 0
  {
    StratumOf(InOrder(episodes), strata, |InOrder(episodes)|)
  }

  function InStratum(episodes: seq<(string, Paise)>, strata: nat, s: nat): seq<string>
    requires strata > 0
  {
    Bucket(Refs(InOrder(episodes), |InOrder(episodes)|), StrataMap(episodes, strata), s)
  }

  lemma AmountsAreTotallyOrdered()
    ensures IsTotalOrder(ByAmount())
  {
    NamesAreTotallyOrdered();
    var lt := ByAmount();
    forall x: (string, Paise), y: (string, Paise), z: (string, Paise)
      ensures !lt(x, x) && (lt(x, y) && lt(y, z) ==> lt(x, z)) && (x == y || lt(x, y) || lt(y, x))
    {
      assert !Less(x.0, x.0);
      assert Less(x.0, y.0) && Less(y.0, z.0) ==> Less(x.0, z.0);
      assert x.0 == y.0 || Less(x.0, y.0) || Less(y.0, x.0);
    }
  }

  /** No two pairs of the multiset share a reference. */
  lemma {:induction false} DistinctRefsSurviveSorting(episodes: seq<(string, Paise)>, lt: ((string, Paise), (string, Paise)) -> bool)
    requires DistinctRefs(episodes)
    ensures DistinctRefs(Sort(episodes, lt))
  {
    if episodes != [] {
      var rest := Sort(episodes[1..], lt);
      DistinctRefsSurviveSorting(episodes[1..], lt);
      SortPermutes(episodes[1..], lt);
      forall y <- rest ensures y.0 != episodes[0].0 {
        assert y in multiset(rest);
        assert y in episodes[1..];
      }
      InsertKeepsDistinct(episodes[0], rest, lt);
    }
  }

  lemma {:induction false} InsertKeepsDistinct(x: (string, Paise), ys: seq<(string, Paise)>, lt: ((string, Paise), (string, Paise)) -> bool)
    requires DistinctRefs(ys) && forall y <- ys :: y.0 != x.0
    ensures DistinctRefs(Insert(x, ys, lt))
  {
    if ys != [] && lt(ys[0], x) {
      var rest := Insert(x, ys[1..], lt);
      InsertKeepsDistinct(x, ys[1..], lt);
      InsertPermutes(x, ys[1..], lt);
      forall z <- rest ensures z.0 != ys[0].0 {
        assert z in multiset(rest);
        assert z == x || z in ys[1..];
      }
    }
  }

  /** Every stratum is a stretch of the ranking by amount, and any two differ in size by at
      most one. */
  lemma StrataAreContiguousAndEven(episodes: seq<(string, Paise)>, strata: nat, s: nat, t: nat)
    requires DistinctRefs(episodes) && strata > 0 && s < strata && t < strata
    ensures var ordered := InOrder(episodes);
            var lo, hi := FirstRank(s, |ordered|, strata), FirstRank(s + 1, |ordered|, strata);
            lo <= hi <= |ordered| && InStratum(episodes, strata, s) == Stretch(ordered, lo, hi)
    ensures -1 <= |InStratum(episodes, strata, s)| - |InStratum(episodes, strata, t)| <= 1
  {
    OneStretch(episodes, strata, s);
    OneStretch(episodes, strata, t);
    StretchSize(s, |InOrder(episodes)|, strata);
    StretchSize(t, |InOrder(episodes)|, strata);
    EvenSizes(|InStratum(episodes, strata, s)|, |InStratum(episodes, strata, t)|, |InOrder(episodes)|, strata);
  }

  lemma OneStretch(episodes: seq<(string, Paise)>, strata: nat, s: nat)
    requires DistinctRefs(episodes) && strata > 0 && s < strata
    ensures var ordered := InOrder(episodes);
            var lo, hi := FirstRank(s, |ordered|, strata), FirstRank(s + 1, |ordered|, strata);
            lo <= hi <= |ordered| && InStratum(episodes, strata, s) == Stretch(ordered, lo, hi)
  {
    DistinctRefsSurviveSorting(episodes, ByAmount());
    RankedStretch(InOrder(episodes), strata, s);
  }

  lemma RankedStretch(ordered: seq<(string, Paise)>, strata: nat, s: nat)
    requires DistinctRefs(ordered) && strata > 0 && s < strata
    ensures var lo, hi := FirstRank(s, |ordered|, strata), FirstRank(s + 1, |ordered|, strata);
            && lo <= hi <= |ordered|
            && Bucket(Refs(ordered, |ordered|), StratumOf(ordered, strata, |ordered|), s) == Stretch(ordered, lo, hi)
  {
    var n, stratum := |ordered|, StratumOf(ordered, strata, |ordered|);
    var lo, hi := FirstRank(s, n, strata), FirstRank(s + 1, n, strata);
    DistinctRefsAreAllKept(ordered, strata, n);
    RanksRise(s, n, strata);
    RanksFitIn(s, n, strata);
    RanksFitIn(s + 1, n, strata);
    forall i | 0 <= i < n ensures ordered[i].0 in stratum && (stratum[ordered[i].0] == s <==> lo <= i < hi) {
      RankBounds(i, n, strata, s);
    }
    BucketIsStretch(ordered, stratum, s, lo, hi, n);
    assert Stretch(ordered, Cap(lo, n), Cap(hi, n)) == Stretch(ordered, lo, hi);
  }

  /** And the amounts never fall from one rank to the next; equal amounts go by reference. */
  lemma RankingFollowsAmounts(episodes: seq<(string, Paise)>, i: nat, j: nat)
    requires i < j < |InOrder(episodes)|
    ensures InOrder(episodes)[i].1 <= InOrder(episodes)[j].1
    ensures InOrder(episodes)[i].1 == InOrder(episodes)[j].1 ==> !Less(InOrder(episodes)[j].0, InOrder(episodes)[i].0)
  {
    AmountsAreTotallyOrdered();
    TotalIsWeak(ByAmount());
    SortAscends(episodes, ByAmount());
    assert !ByAmount()(InOrder(episodes)[j], InOrder(episodes)[i]);
  }

  /* ----- everyone gets one arm ----- */

  /** How many of `refs` the arm map sends to `a`. */
  function Tally(arm: map<string, string>, refs: seq<string>, a: string): nat {
    if refs == [] then 0
    else Tally(arm, refs[1..], a) + (if refs[0] in arm && arm[refs[0]] == a then 1 else 0)
  }

  lemma {:induction false} TallyOfInsert(arm: map<string, string>, x: string, ys: seq<string>, a: string, lt: (string, string) -> bool)
    ensures Tally(arm, Insert(x, ys, lt), a) == Tally(arm, [x] + ys, a)
  {
    assert ([x] + ys)[1..] == ys;
    if ys != [] && lt(ys[0], x) {
      TallyOfInsert(arm, x, ys[1..], a, lt);
      assert ([x] + ys[1..])[1..] == ys[1..];
    }
  }

  lemma {:induction false} TallyOfSort(arm: map<string, string>, xs: seq<string>, a: string, lt: (string, string) -> bool)
    ensures Tally(arm, Sort(xs, lt), a) == Tally(arm, xs, a)
  {
    if xs != [] {
      TallyOfSort(arm, xs[1..], a, lt);
      TallyOfInsert(arm, xs[0], Sort(xs[1..], lt), a, lt);
      assert ([xs[0]] + Sort(xs[1..], lt))[1..] == Sort(xs[1..], lt);
    }
  }

  lemma {:induction false} DealtKeys(arm: map<string, string>, members: seq<string>, arms: seq<string>)
    requires |members| == |arms|
    ensures forall r :: r in Dealt(arm, members, arms) <==> r in arm || r in members
    ensures forall r :: r in arm && r !in members ==> Dealt(arm, members, arms)[r] == arm[r]
  {
    if members != [] {
      var n := |members| - 1;
      assert members == members[..n] + [members[n]];
      DealtKeys(arm, members[..n], arms[..n]);
    }
  }

  lemma {:induction false} DealtHandsOut(arm: map<string, string>, members: seq<string>, arms: seq<string>)
    requires |members| == |arms|
    requires forall i, j | 0 <= i < j < |members| :: members[i] != members[j]
    ensures forall i | 0 <= i < |members| :: members[i] in Dealt(arm, members, arms) &&
              Dealt(arm, members, arms)[members[i]] == arms[i]
  {
    if members != [] {
      var n := |members| - 1;
      DealtHandsOut(arm, members[..n], arms[..n]);
      forall i | 0 <= i < |members|
        ensures members[i] in Dealt(arm, members, arms) && Dealt(arm, members, arms)[members[i]] == arms[i]
      {
        if i < n {
          assert members[..n][i] == members[i] && arms[..n][i] == arms[i];
        }
      }
    }
  }

  lemma {:induction false} TallyOfHand(arm: map<string, string>, members: seq<string>, arms: seq<string>, a: string)
    requires |members| == |arms|
    requires forall i | 0 <= i < |members| :: members[i] in arm && arm[members[i]] == arms[i]
    ensures Tally(arm, members, a) == multiset(arms)[a]
  {
    if members != [] {
      forall i | 0 <= i < |members| - 1 ensures members[1..][i] in arm && arm[members[1..][i]] == arms[1..][i] {
        assert members[1..][i] == members[i + 1];
      }
      TallyOfHand(arm, members[1..], arms[1..], a);
      assert arms == [arms[0]] + arms[1..];
    }
  }

  /** Members of different strata are different, so later deals do not undo earlier ones. */
  lemma {:induction false} BucketMembers(refs: seq<string>, stratum: map<string, nat>, s: nat)
    ensures forall r :: r in Bucket(refs, stratum, s) <==> r in refs && r in stratum && stratum[r] == s
    ensures (forall i, j | 0 <= i < j < |refs| :: refs[i] != refs[j]) ==>
              forall i, j | 0 <= i < j < |Bucket(refs, stratum, s)| ::
                Bucket(refs, stratum, s)[i] != Bucket(refs, stratum, s)[j]
  {
    if refs != [] {
      var n := |refs| - 1;
      assert refs == refs[..n] + [refs[n]];
      BucketMembers(refs[..n], stratum, s);
      assert (forall i, j | 0 <= i < j < |refs| :: refs[i] != refs[j]) ==> refs[n] !in refs[..n];
    }
  }

  lemma MembersAreTheBucket(refs: seq<string>, stratum: map<string, nat>, lt: (string, string) -> bool, s: nat)
    requires forall i, j | 0 <= i < j < |refs| :: refs[i] != refs[j]
    ensures |Members(refs, stratum, lt, s)| == |Bucket(refs, stratum, s)|
    ensures forall r :: r in Members(refs, stratum, lt, s) <==> r in refs && r in stratum && stratum[r] == s
    ensures forall i, j | 0 <= i < j < |Members(refs, stratum, lt, s)| ::
              Members(refs, stratum, lt, s)[i] != Members(refs, stratum, lt, s)[j]
  {
    var bucket, members := Bucket(refs, stratum, s), Members(refs, stratum, lt, s);
    BucketMembers(refs, stratum, s);
    SortPermutes(bucket, lt);
    DistinctForgetsOrder(bucket, members);
    forall r ensures r in members <==> r in bucket {
      assert r in multiset(members) <==> r in multiset(bucket);
    }
  }

  /** The arm map covers exactly the strata below `k`. */
  ghost predicate Covers(arm: map<string, string>, refs: seq<string>, stratum: map<string, nat>, k: nat) {
    forall r :: r in arm <==> r in refs && r in stratum && stratum[r] < k
  }

  /** Each arm appears in stratum `s` as often as it is dealt to one of that size. */
  ghost predicate FairIn(arm: map<string, string>, refs: seq<string>, stratum: map<string, nat>, deal: nat -> seq<string>, s: nat) {
    var bucket := Bucket(refs, stratum, s);
    forall a :: Tally(arm, bucket, a) == multiset(deal(|bucket|))[a]
  }

  lemma DealtCovers(refs: seq<string>, stratum: map<string, nat>, before: map<string, string>, members: seq<string>,
                    arms: seq<string>, k: nat)
    requires Covers(before, refs, stratum, k) && |arms| == |members|
    requires forall r :: r in members <==> r in refs && r in stratum && stratum[r] == k
    ensures Covers(Dealt(before, members, arms), refs, stratum, k + 1)
  {
    DealtKeys(before, members, arms);
  }

  /** Dealing to stratum `k` hands out exactly `arms` there. */
  lemma DealtIsHandedOut(refs: seq<string>, stratum: map<string, nat>, lt: (string, string) -> bool,
                         before: map<string, string>, arms: seq<string>, k: nat, a: string)
    requires forall i, j | 0 <= i < j < |refs| :: refs[i] != refs[j]
    requires |arms| == |Members(refs, stratum, lt, k)|
    ensures Tally(Dealt(before, Members(refs, stratum, lt, k), arms), Bucket(refs, stratum, k), a) == multiset(arms)[a]
  {
    var members := Members(refs, stratum, lt, k);
    MembersAreTheBucket(refs, stratum, lt, k);
    DealtHandsOut(before, members, arms);
    TallyOfHand(Dealt(before, members, arms), members, arms, a);
    TallyOfSort(Dealt(before, members, arms), Bucket(refs, stratum, k), a, lt);
  }

  /** And leaves every other stratum alone. */
  lemma DealtLeavesOthers(refs: seq<string>, stratum: map<string, nat>, before: map<string, string>,
                          members: seq<string>, arms: seq<string>, k: nat, s: nat, a: string)
    requires |arms| == |members| && s != k
    requires forall r <- members :: r in stratum && stratum[r] == k
    ensures Tally(Dealt(before, members, arms), Bucket(refs, stratum, s), a) == Tally(before, Bucket(refs, stratum, s), a)
  {
    BucketMembers(refs, stratum, s);
    DealtKeys(before, members, arms);
    TallyAgrees(before, Dealt(before, members, arms), Bucket(refs, stratum, s), a);
  }

  /** The strata below `k` are dealt, each fairly. */
  ghost predicate Done(arm: map<string, string>, refs: seq<string>, stratum: map<string, nat>, deal: nat -> seq<string>, k: nat) {
    && Covers(arm, refs, stratum, k)
    && forall s: nat | s < k :: FairIn(arm, refs, stratum, deal, s)
  }

  lemma DealingOne(refs: seq<string>, stratum: map<string, nat>, lt: (string, string) -> bool, deal: nat -> seq<string>,
                   before: map<string, string>, k: nat)
    requires Done(before, refs, stratum, deal, k)
    requires forall i, j | 0 <= i < j < |refs| :: refs[i] != refs[j]
    requires |deal(|Bucket(refs, stratum, k)|)| == |Members(refs, stratum, lt, k)|
    ensures Done(Dealt(before, Members(refs, stratum, lt, k), deal(|Bucket(refs, stratum, k)|)), refs, stratum, deal, k + 1)
  {
    var members, arms := Members(refs, stratum, lt, k), deal(|Bucket(refs, stratum, k)|);
    var after := Dealt(before, members, arms);
    MembersAreTheBucket(refs, stratum, lt, k);
    DealtCovers(refs, stratum, before, members, arms, k);
    forall s: nat | s < k + 1 ensures FairIn(after, refs, stratum, deal, s) {
      forall a ensures Tally(after, Bucket(refs, stratum, s), a) == multiset(deal(|Bucket(refs, stratum, s)|))[a] {
        if s < k {
          assert FairIn(before, refs, stratum, deal, s);
          DealtLeavesOthers(refs, stratum, before, members, arms, k, s, a);
        } else {
          DealtIsHandedOut(refs, stratum, lt, before, arms, k, a);
        }
      }
    }
  }

  /** Dealing lists that fit never fails, covers exactly the strata dealt, and is fair in each. */
  lemma {:induction false} DealingUpTo(refs: seq<string>, stratum: map<string, nat>, lt: (string, string) -> bool,
                                       deal: nat -> seq<string>, k: nat)
    requires forall n: nat :: |deal(n)| == n
    requires forall i, j | 0 <= i < j < |refs| :: refs[i] != refs[j]
    ensures DealtUpTo(refs, stratum, lt, deal, k).Some?
    ensures Done(DealtUpTo(refs, stratum, lt, deal, k).value, refs, stratum, deal, k)
  {
    if k > 0 {
      DealingUpTo(refs, stratum, lt, deal, k - 1);
      MembersAreTheBucket(refs, stratum, lt, k - 1);
      DealingOne(refs, stratum, lt, deal, DealtUpTo(refs, stratum, lt, deal, k - 1).value, k - 1);
    }
  }

  lemma {:induction false} TallyAgrees(x: map<string, string>, y: map<string, string>, refs: seq<string>, a: string)
    requires forall r <- refs :: (r in x <==> r in y) && (r in x ==> x[r] == y[r])
    ensures Tally(x, refs, a) == Tally(y, refs, a)
  {
    if refs != [] {
      TallyAgrees(x, y, refs[1..], a);
    }
  }

  lemma DealerFits(shares: Shares)
    requires shares.Valid() && shares.SumToOne()
    ensures forall n: nat :: |Dealer(shares)(n)| == n
  {
    forall n: nat ensures |Dealer(shares)(n)| == n {
      LeftoverIsPaidFor(n, shares);
      DealFitsExactly(n, shares);
    }
  }

  lemma SortedPopulation(episodes: seq<(string, Paise)>, r: string)
    ensures |InOrder(episodes)| == |episodes|
    ensures (exists i | 0 <= i < |InOrder(episodes)| :: InOrder(episodes)[i].0 == r) <==> exists e <- episodes :: e.0 == r
  {
    var ordered := InOrder(episodes);
    SortPermutes(episodes, ByAmount());
    if i :| 0 <= i < |ordered| && ordered[i].0 == r {
      assert ordered[i] in multiset(ordered);
    }
    if e :| e in episodes && e.0 == r {
      assert e in multiset(ordered);
      var i :| 0 <= i < |ordered| && ordered[i] == e;
    }
  }

  lemma RefsOfPopulation(episodes: seq<(string, Paise)>, strata: nat)
    requires DistinctRefs(episodes) && strata > 0
    ensures var refs := Refs(InOrder(episodes), |InOrder(episodes)|);
            && |refs| == |episodes|
            && (forall i, j | 0 <= i < j < |refs| :: refs[i] != refs[j])
            && (forall r :: r in refs <==> r in StrataMap(episodes, strata))
            && (forall r :: r in refs <==> exists e <- episodes :: e.0 == r)
            && (forall r <- refs :: StrataMap(episodes, strata)[r] < strata)
  {
    var ordered := InOrder(episodes);
    var refs := Refs(ordered, |ordered|);
    DistinctRefsSurviveSorting(episodes, ByAmount());
    DistinctRefsAreAllKept(ordered, strata, |ordered|);
    RefsAreRanked(ordered, strata, |ordered|);
    SortedPopulation(episodes, "");
    forall r ensures r in refs <==> exists e <- episodes :: e.0 == r {
      SortedPopulation(episodes, r);
    }
    forall i, j | 0 <= i < j < |refs| ensures refs[i] != refs[j] {
      assert ordered[i].0 != ordered[j].0;
    }
  }

  lemma DealtFairly(episodes: seq<(string, Paise)>, digest: string -> string, shares: Shares, strata: nat)
    requires shares.Valid() && shares.SumToOne() && strata > 0 && DistinctRefs(episodes)
    ensures Stratified(episodes, digest, shares, strata).Some?
    ensures var alloc := Stratified(episodes, digest, shares, strata).value;
            && alloc.stratum == StrataMap(episodes, strata)
            && Done(alloc.arm, Refs(InOrder(episodes), |InOrder(episodes)|), StrataMap(episodes, strata), Dealer(shares), strata)
  {
    var refs, stratum := Refs(InOrder(episodes), |InOrder(episodes)|), StrataMap(episodes, strata);
    RefsOfPopulation(episodes, strata);
    DealerFits(shares);
    DealingUpTo(refs, stratum, ByDigest(digest), Dealer(shares), strata);
    var arm := DealtUpTo(refs, stratum, ByDigest(digest), Dealer(shares), strata).value;
    assert Stratified(episodes, digest, shares, strata) == Some(Allocation(arm, stratum));
  }

  /** The assignment always succeeds: the strict zip never finds a length that differs, and
      every reference has one arm and one stratum. */
  lemma EveryoneIsAssigned(episodes: seq<(string, Paise)>, digest: string -> string, shares: Shares, strata: nat)
    requires shares.Valid() && shares.SumToOne() && strata > 0 && DistinctRefs(episodes)
    ensures Stratified(episodes, digest, shares, strata).Some?
    ensures var alloc := Stratified(episodes, digest, shares, strata).value;
            && (forall r :: r in alloc.arm <==> exists e <- episodes :: e.0 == r)
            && (forall r :: r in alloc.stratum <==> exists e <- episodes :: e.0 == r)
  {
    DealtFairly(episodes, digest, shares, strata);
    RefsOfPopulation(episodes, strata);
  }

  /** Arm `a` is within one of its quota in a bucket. */
  ghost predicate FairBucket(arm: map<string, string>, bucket: seq<string>, a: string, num: nat, whole: nat) {
    WithinOne(Tally(arm, bucket, a), |bucket| * num, whole)
  }

  /** In each stratum every arm's count is strictly within one of its exact quota, and exact
      when that is whole. */
  lemma AssignmentIsFair(episodes: seq<(string, Paise)>, digest: string -> string, shares: Shares, strata: nat,
                         s: nat, a: string)
    requires shares.Valid() && shares.SumToOne() && strata > 0 && s < strata && a in shares.num
    requires DistinctRefs(episodes)
    ensures Stratified(episodes, digest, shares, strata).Some?
    ensures FairBucket(Stratified(episodes, digest, shares, strata).value.arm, InStratum(episodes, strata, s), a,
                       shares.num[a], shares.whole)
  {
    DealtFairly(episodes, digest, shares, strata);
    var arm, bucket := Stratified(episodes, digest, shares, strata).value.arm, InStratum(episodes, strata, s);
    assert Tally(arm, bucket, a) == multiset(Apportioned(|bucket|, shares))[a] by {
      assert FairIn(arm, Refs(InOrder(episodes), |InOrder(episodes)|), StrataMap(episodes, strata), Dealer(shares), s);
    }
    ApportionmentIsFair(|bucket|, shares, a);
  }

  /* ----- totals over all strata ----- */

  /** How many references below stratum `k` the arm map sends to `a`. */
  function TallyBelow(arm: map<string, string>, refs: seq<string>, stratum: map<string, nat>, k: nat, a: string): nat {
    if k == 0 then 0 else TallyBelow(arm, refs, stratum, k - 1, a) + Tally(arm, Bucket(refs, stratum, k - 1), a)
  }

  function SizeBelow(refs: seq<string>, stratum: map<string, nat>, k: nat): nat {
    if k == 0 then 0 else SizeBelow(refs, stratum, k - 1) + |Bucket(refs, stratum, k - 1)|
  }

  lemma BucketOfMore(refs: seq<string>, r: string, stratum: map<string, nat>, s: nat)
    requires r in stratum
    ensures Bucket(refs + [r], stratum, s) == Bucket(refs, stratum, s) + (if stratum[r] == s then [r] else [])
  {
    assert (refs + [r])[..|refs|] == refs;
  }

  lemma {:induction false} OneMoreRef(arm: map<string, string>, refs: seq<string>, r: string, stratum: map<string, nat>, k: nat, a: string)
    requires r in stratum
    ensures TallyBelow(arm, refs + [r], stratum, k, a) ==
            TallyBelow(arm, refs, stratum, k, a) + (if stratum[r] < k then Tally(arm, [r], a) else 0)
    ensures SizeBelow(refs + [r], stratum, k) == SizeBelow(refs, stratum, k) + (if stratum[r] < k then 1 else 0)
  {
    if k > 0 {
      OneMoreRef(arm, refs, r, stratum, k - 1, a);
      BucketOfMore(refs, r, stratum, k - 1);
      TallyAppend(arm, Bucket(refs, stratum, k - 1), if stratum[r] == k - 1 then [r] else [], a);
    }
  }

  lemma {:induction false} TallyAppend(arm: map<string, string>, xs: seq<string>, ys: seq<string>, a: string)
    ensures Tally(arm, xs + ys, a) == Tally(arm, xs, a) + Tally(arm, ys, a)
  {
    if xs == [] {
      assert xs + ys == ys;
    } else {
      assert (xs + ys)[1..] == xs[1..] + ys;
      TallyAppend(arm, xs[1..], ys, a);
    }
  }

  /** The strata partition the population. */
  lemma {:induction false} StrataCoverEveryone(arm: map<string, string>, refs: seq<string>, stratum: map<string, nat>,
                                               strata: nat, a: string)
    requires forall r <- refs :: r in stratum && stratum[r] < strata
    ensures TallyBelow(arm, refs, stratum, strata, a) == Tally(arm, refs, a)
    ensures SizeBelow(refs, stratum, strata) == |refs|
  {
    if refs == [] {
      NoneBelow(arm, stratum, strata, a);
    } else {
      var n := |refs| - 1;
      assert refs == refs[..n] + [refs[n]];
      StrataCoverEveryone(arm, refs[..n], stratum, strata, a);
      OneMoreRef(arm, refs[..n], refs[n], stratum, strata, a);
      TallyAppend(arm, refs[..n], [refs[n]], a);
    }
  }

  lemma {:induction false} NoneBelow(arm: map<string, string>, stratum: map<string, nat>, k: nat, a: string)
    ensures TallyBelow(arm, [], stratum, k, a) == 0 && SizeBelow([], stratum, k) == 0
  {
    if k > 0 {
      NoneBelow(arm, stratum, k - 1, a);
    }
  }

  /** Strictly within `k` times `whole`; exact when `k` is zero. */
  predicate WithinMany(count: int, quota: int, whole: nat, k: nat) {
    if k == 0 then count * whole == quota
    else quota - k * whole < count * whole < quota + k * whole
  }

  lemma AddErrors(count: nat, quota: nat, more: nat, moreQuota: nat, whole: nat, k: nat)
    requires WithinMany(count, quota, whole, k) && WithinOne(more, moreQuota, whole)
    ensures WithinMany(count + more, quota + moreQuota, whole, k + 1)
  {
    Distribute(whole, count, more);
    Distribute(whole, k, 1);
  }

  lemma AddBucket(arm: map<string, string>, bucket: seq<string>, a: string, num: nat, whole: nat, count: nat, size: nat, k: nat)
    requires FairBucket(arm, bucket, a, num, whole) && WithinMany(count, size * num, whole, k)
    ensures WithinMany(count + Tally(arm, bucket, a), (size + |bucket|) * num, whole, k + 1)
  {
    AddErrors(count, size * num, Tally(arm, bucket, a), |bucket| * num, whole, k);
    Distribute(num, size, |bucket|);
  }

  /** Off by less than one in each stratum is off by less than their number in all. */
  lemma {:induction false} ErrorsAddUp(arm: map<string, string>, refs: seq<string>, stratum: map<string, nat>, k: nat, a: string,
                                       num: nat, whole: nat)
    requires forall s: nat | s < k :: FairBucket(arm, Bucket(refs, stratum, s), a, num, whole)
    ensures WithinMany(TallyBelow(arm, refs, stratum, k, a), SizeBelow(refs, stratum, k) * num, whole, k)
  {
    if k > 0 {
      ErrorsAddUp(arm, refs, stratum, k - 1, a, num, whole);
      AddBucket(arm, Bucket(refs, stratum, k - 1), a, num, whole,
                TallyBelow(arm, refs, stratum, k - 1, a), SizeBelow(refs, stratum, k - 1), k - 1);
    }
  }

  lemma TotalsFromStrata(arm: map<string, string>, refs: seq<string>, stratum: map<string, nat>, strata: nat, a: string,
                         num: nat, whole: nat)
    requires forall r <- refs :: r in stratum && stratum[r] < strata
    requires forall s: nat | s < strata :: FairBucket(arm, Bucket(refs, stratum, s), a, num, whole)
    ensures WithinMany(Tally(arm, refs, a), |refs| * num, whole, strata)
  {
    StrataCoverEveryone(arm, refs, stratum, strata, a);
    ErrorsAddUp(arm, refs, stratum, strata, a, num, whole);
  }

  /** Over the whole population every arm's total is strictly within the number of strata of
      its share. */
  lemma TotalsAreFair(episodes: seq<(string, Paise)>, digest: string -> string, shares: Shares, strata: nat, a: string)
    requires shares.Valid() && shares.SumToOne() && strata > 0 && a in shares.num
    requires DistinctRefs(episodes)
    ensures Stratified(episodes, digest, shares, strata).Some?
    ensures var refs := Refs(InOrder(episodes), |InOrder(episodes)|);
            && |refs| == |episodes|
            && WithinMany(Tally(Stratified(episodes, digest, shares, strata).value.arm, refs, a),
                          |refs| * shares.num[a], shares.whole, strata)
  {
    var refs, stratum := Refs(InOrder(episodes), |InOrder(episodes)|), StrataMap(episodes, strata);
    AssignmentIsFair(episodes, digest, shares, strata, 0, a);
    var arm := Stratified(episodes, digest, shares, strata).value.arm;
    RefsOfPopulation(episodes, strata);
    forall s: nat | s < strata ensures FairBucket(arm, Bucket(refs, stratum, s), a, shares.num[a], shares.whole) {
      AssignmentIsFair(episodes, digest, shares, strata, s, a);
    }
    TotalsFromStrata(arm, refs, stratum, strata, a, shares.num[a], shares.whole);
  }

  /** The allocation does not depend on the order the episodes come in. */
  lemma AssignmentForgetsInputOrder(episodes: seq<(string, Paise)>, others: seq<(string, Paise)>, digest: string -> string,
                                    shares: Shares, strata: nat)
    requires shares.Valid() && strata > 0 && multiset(episodes) == multiset(others)
    ensures Stratified(episodes, digest, shares, strata) == Stratified(others, digest, shares, strata)
  {
    AmountsAreTotallyOrdered();
    SortForgetsOrder(episodes, others, ByAmount());
  }

  /* ----- and on the order of the shares? ----- */

  lemma {:induction false} DealtRemembers(refs: seq<string>, stratum: map<string, nat>, lt: (string, string) -> bool,
                                          deal: nat -> seq<string>, k: nat, s: nat, i: nat)
    requires forall i, j | 0 <= i < j < |refs| :: refs[i] != refs[j]
    requires DealtUpTo(refs, stratum, lt, deal, k).Some? && s < k && i < |Members(refs, stratum, lt, s)|
    ensures |deal(|Members(refs, stratum, lt, s)|)| == |Members(refs, stratum, lt, s)|
    ensures var arm, r := DealtUpTo(refs, stratum, lt, deal, k).value, Members(refs, stratum, lt, s)[i];
            r in arm && arm[r] == deal(|Members(refs, stratum, lt, s)|)[i]
  {
    var before := DealtUpTo(refs, stratum, lt, deal, k - 1).value;
    if s == k - 1 {
      MembersAreTheBucket(refs, stratum, lt, s);
      DealtHandsOut(before, Members(refs, stratum, lt, s), deal(|Members(refs, stratum, lt, s)|));
    } else {
      DealtRemembers(refs, stratum, lt, deal, k - 1, s, i);
      LaterDealsKeep(refs, stratum, lt, before, deal(|Members(refs, stratum, lt, k - 1)|), k - 1, s,
                     Members(refs, stratum, lt, s)[i]);
    }
  }

  lemma LaterDealsKeep(refs: seq<string>, stratum: map<string, nat>, lt: (string, string) -> bool,
                       before: map<string, string>, arms: seq<string>, k: nat, s: nat, r: string)
    requires forall i, j | 0 <= i < j < |refs| :: refs[i] != refs[j]
    requires s != k && r in Members(refs, stratum, lt, s) && r in before && |arms| == |Members(refs, stratum, lt, k)|
    ensures var arm := Dealt(before, Members(refs, stratum, lt, k), arms);
            r in arm && arm[r] == before[r]
  {
    MembersAreTheBucket(refs, stratum, lt, s);
    MembersAreTheBucket(refs, stratum, lt, k);
    DealtKeys(before, Members(refs, stratum, lt, k), arms);
  }

  /** The two dealers hand out the same list in stratum `s`. */
  ghost predicate SameHand(refs: seq<string>, stratum: map<string, nat>, deal: nat -> seq<string>, other: nat -> seq<string>, s: nat) {
    deal(|Bucket(refs, stratum, s)|) == other(|Bucket(refs, stratum, s)|)
  }

  /** The two dealers hand out the same list in every stratum below `k`. */
  ghost predicate SameHands(refs: seq<string>, stratum: map<string, nat>, deal: nat -> seq<string>, other: nat -> seq<string>, k: nat) {
    forall s: nat | s < k :: SameHand(refs, stratum, deal, other, s)
  }

  lemma {:induction false} SameHandsSameDeal(refs: seq<string>, stratum: map<string, nat>, lt: (string, string) -> bool,
                                             deal: nat -> seq<string>, other: nat -> seq<string>, k: nat)
    requires forall i, j | 0 <= i < j < |refs| :: refs[i] != refs[j]
    requires SameHands(refs, stratum, deal, other, k)
    ensures DealtUpTo(refs, stratum, lt, deal, k) == DealtUpTo(refs, stratum, lt, other, k)
  {
    if k > 0 {
      SameHandsSameDeal(refs, stratum, lt, deal, other, k - 1);
      MembersAreTheBucket(refs, stratum, lt, k - 1);
      assert SameHand(refs, stratum, deal, other, k - 1);
    }
  }

  lemma SameDealSameHands(refs: seq<string>, stratum: map<string, nat>, lt: (string, string) -> bool,
                          deal: nat -> seq<string>, other: nat -> seq<string>, k: nat)
    requires forall i, j | 0 <= i < j < |refs| :: refs[i] != refs[j]
    requires DealtUpTo(refs, stratum, lt, deal, k).Some?
    requires DealtUpTo(refs, stratum, lt, deal, k) == DealtUpTo(refs, stratum, lt, other, k)
    requires forall n: nat :: |deal(n)| == |other(n)|
    ensures SameHands(refs, stratum, deal, other, k)
  {
    forall s: nat | s < k ensures SameHand(refs, stratum, deal, other, s) {
      var members := Members(refs, stratum, lt, s);
      MembersAreTheBucket(refs, stratum, lt, s);
      DealtFits(refs, stratum, lt, deal, k, s);
      forall i | 0 <= i < |members| ensures deal(|members|)[i] == other(|members|)[i] {
        DealtRemembers(refs, stratum, lt, deal, k, s, i);
        DealtRemembers(refs, stratum, lt, other, k, s, i);
      }
    }
  }

  lemma {:induction false} DealtFits(refs: seq<string>, stratum: map<string, nat>, lt: (string, string) -> bool,
                                     deal: nat -> seq<string>, k: nat, s: nat)
    requires DealtUpTo(refs, stratum, lt, deal, k).Some? && s < k
    ensures |deal(|Members(refs, stratum, lt, s)|)| == |Members(refs, stratum, lt, s)|
  {
    if s < k - 1 {
      DealtFits(refs, stratum, lt, deal, k - 1, s);
    }
  }

  lemma {:induction false} RefsAreDistinct(ordered: seq<(string, Paise)>, k: nat)
    requires k <= |ordered|
    ensures forall i, j | 0 <= i < j < |Refs(ordered, k)| :: Refs(ordered, k)[i] != Refs(ordered, k)[j]
  {
    if k > 0 {
      RefsAreDistinct(ordered, k - 1);
    }
  }

  lemma DealersFitAlike(shares: Shares, arms: seq<string>, n: nat)
    requires shares.Valid() && multiset(arms) == multiset(shares.arms)
    ensures shares.(arms := arms).Valid()
    ensures |Dealer(shares.(arms := arms))(n)| == |Dealer(shares)(n)|
  {
    CountsForgetArmOrder(n, shares, arms);
    AllCountsTogether(n, shares);
    AllCountsTogether(n, shares.(arms := arms));
    SpreadCounts(Counts(n, shares), shares.arms, "");
    SpreadCounts(Counts(n, shares), arms, "");
    TotalForgetsOrder(Counts(n, shares), shares.arms, arms);
  }

  /** Among `size` members the arms that get one come in the same order in both lists. */
  ghost predicate SameArms(size: nat, shares: Shares, arms: seq<string>)
    requires shares.Valid()
  {
    Present(Counts(size, shares), arms) == Present(Counts(size, shares), shares.arms)
  }

  /** In every stratum the arms that get a member come in the same order in both lists. */
  ghost predicate SameArmOrder(episodes: seq<(string, Paise)>, shares: Shares, arms: seq<string>, strata: nat)
    requires shares.Valid() && strata > 0
  {
    forall s: nat | s < strata :: SameArms(|InStratum(episodes, strata, s)|, shares, arms)
  }

  lemma SameArmsExactly(size: nat, shares: Shares, arms: seq<string>)
    requires shares.Valid() && shares.(arms := arms).Valid() && multiset(arms) == multiset(shares.arms)
    ensures Dealer(shares)(size) == Dealer(shares.(arms := arms))(size) <==> SameArms(size, shares, arms)
  {
    SlotsForgetArmOrderExactly(size, shares, arms);
  }

  lemma SameHandExactly(episodes: seq<(string, Paise)>, shares: Shares, arms: seq<string>, strata: nat, s: nat)
    requires shares.Valid() && shares.(arms := arms).Valid() && strata > 0 && multiset(arms) == multiset(shares.arms)
    ensures var refs := Refs(InOrder(episodes), |InOrder(episodes)|);
            SameHand(refs, StrataMap(episodes, strata), Dealer(shares), Dealer(shares.(arms := arms)), s) <==>
            SameArms(|InStratum(episodes, strata, s)|, shares, arms)
  {
    SameArmsExactly(|InStratum(episodes, strata, s)|, shares, arms);
  }

  lemma SameArmOrderExactly(episodes: seq<(string, Paise)>, shares: Shares, arms: seq<string>, strata: nat)
    requires shares.Valid() && shares.(arms := arms).Valid() && strata > 0 && multiset(arms) == multiset(shares.arms)
    ensures var refs := Refs(InOrder(episodes), |InOrder(episodes)|);
            SameHands(refs, StrataMap(episodes, strata), Dealer(shares), Dealer(shares.(arms := arms)), strata) <==>
            SameArmOrder(episodes, shares, arms, strata)
  {
    var refs, stratum := Refs(InOrder(episodes), |InOrder(episodes)|), StrataMap(episodes, strata);
    forall s: nat
      ensures SameHand(refs, stratum, Dealer(shares), Dealer(shares.(arms := arms)), s) <==>
              SameArms(|InStratum(episodes, strata, s)|, shares, arms)
    {
      SameHandExactly(episodes, shares, arms, strata, s);
    }
  }

  /** Listing the shares in another order leaves an allocation alone exactly when in every
      stratum the arms that get a member come in the same order in both lists. */
  lemma AllocationForgetsArmOrderExactly(episodes: seq<(string, Paise)>, digest: string -> string, shares: Shares,
                                         arms: seq<string>, strata: nat)
    requires shares.Valid() && strata > 0 && multiset(arms) == multiset(shares.arms)
    requires Stratified(episodes, digest, shares, strata).Some?
    ensures shares.(arms := arms).Valid()
    ensures Stratified(episodes, digest, shares.(arms := arms), strata) == Stratified(episodes, digest, shares, strata) <==>
            SameArmOrder(episodes, shares, arms, strata)
  {
    RearrangedIsValid(shares, arms);
    var refs, stratum, lt := Refs(InOrder(episodes), |InOrder(episodes)|), StrataMap(episodes, strata), ByDigest(digest);
    var deal, other := Dealer(shares), Dealer(shares.(arms := arms));
    RefsAreDistinct(InOrder(episodes), |InOrder(episodes)|);
    SortPermutes(episodes, ByAmount());
    forall n: nat ensures |deal(n)| == |other(n)| {
      DealersFitAlike(shares, arms, n);
    }
    SameArmOrderExactly(episodes, shares, arms, strata);
    if SameHands(refs, stratum, deal, other, strata) {
      SameHandsSameDeal(refs, stratum, lt, deal, other, strata);
    }
    if DealtUpTo(refs, stratum, lt, deal, strata) == DealtUpTo(refs, stratum, lt, other, strata) {
      SameDealSameHands(refs, stratum, lt, deal, other, strata);
    }
  }
}
