/** In which order a stratum's arms are dealt. */
module DealingOrder {
  import opened Domain
  import opened Text
  import opened Sorting
  import opened Strata
  import opened Apportionment
  import opened StrataProperties

  lemma {:induction false} SpreadIsOfArms(m: map<string, nat>, arms: seq<string>)
    ensures forall a <- Spread(m, arms) :: a in arms
  {
    if arms != [] {
      SpreadIsOfArms(m, arms[..|arms| - 1]);
    }
  }

  /** The slots go arm by arm, in the order the arms are listed. */
  lemma {:induction false} SpreadFollowsArms(m: map<string, nat>, arms: seq<string>, p: nat, q: nat, i: nat, j: nat)
    requires forall a, b | 0 <= a < b < |arms| :: arms[a] != arms[b]
    requires p < q < |Spread(m, arms)| && i < |arms| && j < |arms|
    requires Spread(m, arms)[p] == arms[i] && Spread(m, arms)[q] == arms[j]
    ensures i <= j
  {
    var n := |arms| - 1;
    var before := Spread(m, arms[..n]);
    SpreadIsOfArms(m, arms[..n]);
    if q < |before| {
      assert before[p] in arms[..n] && before[q] in arms[..n];
      SpreadFollowsArms(m, arms[..n], p, q, i, j);
    } else {
      assert Spread(m, arms)[q] == arms[n];
    }
  }

  lemma DigestsAreOrdered(digest: string -> string)
    ensures IsWeakOrder(ByDigest(digest))
  {
    NamesAreTotallyOrdered();
  }

  lemma SmallerComesFirst(xs: seq<string>, lt: (string, string) -> bool, p: nat, q: nat)
    requires IsWeakOrder(lt) && p < |Sort(xs, lt)| && q < |Sort(xs, lt)| && lt(Sort(xs, lt)[p], Sort(xs, lt)[q])
    ensures p < q
  {
    SortAscends(xs, lt);
    if q < p {
      assert false;
    }
  }

  /** The members of one stratum as they are dealt. */
  function DealtIn(episodes: seq<(string, Paise)>, digest: string -> string, strata: nat, s: nat): seq<string>
    requires strata > 0
  {
    Members(Refs(InOrder(episodes), |InOrder(episodes)|), StrataMap(episodes, strata), ByDigest(digest), s)
  }

  lemma PositionOf(episodes: seq<(string, Paise)>, digest: string -> string, strata: nat, x: string) returns (p: nat)
    requires strata > 0 && DistinctRefs(episodes) && exists e <- episodes :: e.0 == x
    ensures x in StrataMap(episodes, strata) && StrataMap(episodes, strata)[x] < strata
    ensures var members := DealtIn(episodes, digest, strata, StrataMap(episodes, strata)[x]);
            p < |members| && members[p] == x
  {
    var refs, stratum := Refs(InOrder(episodes), |InOrder(episodes)|), StrataMap(episodes, strata);
    RefsOfPopulation(episodes, strata);
    assert x in refs;
    MembersAreTheBucket(refs, stratum, ByDigest(digest), stratum[x]);
    assert x in DealtIn(episodes, digest, strata, stratum[x]);
    p :| p < |DealtIn(episodes, digest, strata, stratum[x])| && DealtIn(episodes, digest, strata, stratum[x])[p] == x;
  }

  /** A reference has the slot dealt at its own position in its stratum. */
  lemma SlotOf(episodes: seq<(string, Paise)>, digest: string -> string, shares: Shares, strata: nat, s: nat, p: nat)
    requires shares.Valid() && strata > 0 && DistinctRefs(episodes) && s < strata
    requires Stratified(episodes, digest, shares, strata).Some? && p < |DealtIn(episodes, digest, strata, s)|
    ensures var alloc, members := Stratified(episodes, digest, shares, strata).value, DealtIn(episodes, digest, strata, s);
            && |members| == |Apportioned(|members|, shares)| && members[p] in alloc.arm
            && alloc.arm[members[p]] == Apportioned(|members|, shares)[p]
  {
    RefsOfPopulation(episodes, strata);
    DealtRemembers(Refs(InOrder(episodes), |InOrder(episodes)|), StrataMap(episodes, strata), ByDigest(digest), Dealer(shares),
                   strata, s, p);
  }

  /** Within a stratum the arms are dealt along the digests, in the order they are listed: of
      two references the one with the smaller digest never gets a later arm. */
  lemma ArmsFollowDigests(episodes: seq<(string, Paise)>, digest: string -> string, shares: Shares, strata: nat,
                          x: string, y: string, i: nat, j: nat)
    requires shares.Valid() && shares.SumToOne() && strata > 0 && DistinctRefs(episodes)
    requires Stratified(episodes, digest, shares, strata).Some?
    requires var alloc := Stratified(episodes, digest, shares, strata).value;
             && x in alloc.arm && y in alloc.arm && x in alloc.stratum && y in alloc.stratum
             && alloc.stratum[x] == alloc.stratum[y]
             && i < |shares.arms| && j < |shares.arms|
             && alloc.arm[x] == shares.arms[i] && alloc.arm[y] == shares.arms[j]
    requires Less(digest(x), digest(y))
    ensures i <= j
  {
    DealtFairly(episodes, digest, shares, strata);
    EveryoneIsAssigned(episodes, digest, shares, strata);
    var s := StrataMap(episodes, strata)[x];
    var p := PositionOf(episodes, digest, strata, x);
    var q := PositionOf(episodes, digest, strata, y);
    SlotOf(episodes, digest, shares, strata, s, p);
    SlotOf(episodes, digest, shares, strata, s, q);
    DigestsAreOrdered(digest);
    SmallerComesFirst(Bucket(Refs(InOrder(episodes), |InOrder(episodes)|), StrataMap(episodes, strata), s), ByDigest(digest),
                      p, q);
    SpreadFollowsArms(Counts(|DealtIn(episodes, digest, strata, s)|, shares), shares.arms, p, q, i, j);
  }
}
