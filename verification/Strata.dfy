/** Stratified randomisation: dealing episodes to arms within amount strata. */
module Strata {
  import opened Domain
  import opened Text
  import opened Sorting

  /** Arm shares in dictionary order: each arm gets `num[arm] / whole`. */
  datatype Shares = Shares(arms: seq<string>, num: map<string, nat>, whole: nat) {
    ghost predicate Valid() {
      && whole > 0
      && (forall i, j | 0 <= i < j < |arms| :: arms[i] != arms[j])
      && (forall a :: a in num <==> a in arms)
    }

    ghost predicate SumToOne()
      requires Valid()
    {
      Total(num, arms) == whole
    }
  }

  function Total(m: map<string, nat>, xs: seq<string>): nat
    requires forall a <- xs :: a in m
  {
    if xs == [] then 0 else m[xs[0]] + Total(m, xs[1..])
  }

  /* ----- largest-remainder apportionment ----- */

  /** Size times share, rounded down. */
  function WholePart(size: nat, num: nat, whole: nat): nat
    requires whole > 0
  {
    size * num / whole
  }

  /** The whole part of each arm's exact quota. */
  function Floors(size: nat, shares: Shares): (m: map<string, nat>)
    requires shares.Valid()
    ensures m.Keys == shares.num.Keys
  {
    map a | a in shares.num :: WholePart(size, shares.num[a], shares.whole)
  }

  /** Its fractional part, as a numerator over `whole`. */
  function Remainders(size: nat, shares: Shares): (m: map<string, nat>)
    requires shares.Valid()
    ensures m.Keys == shares.num.Keys && forall a <- m :: m[a] < shares.whole
  {
    map a | a in shares.num :: size * shares.num[a] % shares.whole
  }

  /** Larger remainder first, then arm name. */
  function ByRemainder(m: map<string, nat>): (string, string) -> bool {
    (a, b) =>
      var x, y := if a in m then m[a] else 0, if b in m then m[b] else 0;
      x > y || (x == y && Less(a, b))
  }

  function Leftover(size: nat, shares: Shares): int
    requires shares.Valid()
  {
    size - Total(Floors(size, shares), shares.arms)
  }

  function Ranked(size: nat, shares: Shares): seq<string>
    requires shares.Valid()
  {
    Sort(shares.arms, ByRemainder(Remainders(size, shares)))
  }

  /** How much of a list of length `n` the slice `[:k]` takes; a negative `k` counts from the end. */
  function SliceLength(k: int, n: nat): (r: nat)
    ensures r <= n
  {
    if k >= n then n else if k >= 0 then k else if n + k > 0 then n + k else 0
  }

  /** The arms that get one more. */
  function Favoured(size: nat, shares: Shares): seq<string>
    requires shares.Valid()
  {
    SortPermutes(shares.arms, ByRemainder(Remainders(size, shares)));
    Ranked(size, shares)[..SliceLength(Leftover(size, shares), |shares.arms|)]
  }

  function Bumped(m: map<string, nat>, xs: seq<string>): map<string, nat>
    requires forall a <- xs :: a in m
  {
    if xs == [] then m
    else
      var before := Bumped(m, xs[..|xs| - 1]);
      var a := xs[|xs| - 1];
      if a in before then before[a := before[a] + 1] else before
  }

  function Counts(size: nat, shares: Shares): map<string, nat>
    requires shares.Valid()
  {
    FavouredAreArms(size, shares);
    Bumped(Floors(size, shares), Favoured(size, shares))
  }

  lemma FavouredAreArms(size: nat, shares: Shares)
    requires shares.Valid()
    ensures forall a <- Favoured(size, shares) :: a in shares.num
    ensures multiset(Ranked(size, shares)) == multiset(shares.arms) && |Ranked(size, shares)| == |shares.arms|
    ensures forall a <- Ranked(size, shares) :: a in shares.num
  {
    SortPermutes(shares.arms, ByRemainder(Remainders(size, shares)));
    forall a <- Ranked(size, shares) ensures a in shares.num {
      assert a in multiset(Ranked(size, shares));
    }
  }

  function Repeat(a: string, n: nat): (r: seq<string>)
    ensures |r| == n && forall i | 0 <= i < n :: r[i] == a
  {
    if n == 0 then [] else Repeat(a, n - 1) + [a]
  }

  function Spread(m: map<string, nat>, arms: seq<string>): seq<string> {
    if arms == [] then []
    else
      var a := arms[|arms| - 1];
      Spread(m, arms[..|arms| - 1]) + Repeat(a, if a in m then m[a] else 0)
  }

  function Apportioned(size: nat, shares: Shares): seq<string>
    requires shares.Valid()
  {
    Spread(Counts(size, shares), shares.arms)
  }

  lemma {:induction false} BumpedKeys(m: map<string, nat>, xs: seq<string>)
    requires forall a <- xs :: a in m
    ensures Bumped(m, xs).Keys == m.Keys
  {
    if xs != [] {
      BumpedKeys(m, xs[..|xs| - 1]);
    }
  }

  lemma {:induction false} TotalSplits(m: map<string, nat>, xs: seq<string>, ys: seq<string>)
    requires forall a <- xs + ys :: a in m
    ensures (forall a <- xs :: a in m) && (forall a <- ys :: a in m)
    ensures Total(m, xs + ys) == Total(m, xs) + Total(m, ys)
  {
    forall a <- xs ensures a in m {
      assert a in xs + ys;
    }
    forall a <- ys ensures a in m {
      assert a in xs + ys;
    }
    if xs == [] {
      assert xs + ys == ys;
    } else {
      assert (xs + ys)[1..] == xs[1..] + ys;
      TotalSplits(m, xs[1..], ys);
    }
  }

  /** What flooring leaves over. */
  method CountLeftover(size: nat, shares: Shares) returns (leftover: int)
    requires shares.Valid()
    ensures leftover == Leftover(size, shares)
  {
    var arms := shares.arms;
    var floors := Floors(size, shares);
    leftover := size;
    for i := 0 to |arms|
      invariant leftover == size - Total(floors, arms[..i])
    {
      assert arms[..i + 1] == arms[..i] + [arms[i]];
      TotalSplits(floors, arms[..i], [arms[i]]);
      leftover := leftover - floors[arms[i]];
    }
    assert arms[..|arms|] == arms;
  }

  method BumpEach(floors: map<string, nat>, favoured: seq<string>) returns (counts: map<string, nat>)
    requires forall a <- favoured :: a in floors
    ensures counts == Bumped(floors, favoured) && counts.Keys == floors.Keys
  {
    counts := floors;
    for i := 0 to |favoured|
      invariant counts == Bumped(floors, favoured[..i]) && counts.Keys == floors.Keys
    {
      assert favoured[..i + 1][..i] == favoured[..i];
      counts := counts[favoured[i] := counts[favoured[i]] + 1];
    }
    assert favoured[..|favoured|] == favoured;
  }

  method SpreadOut(counts: map<string, nat>, arms: seq<string>) returns (out: seq<string>)
    requires forall a <- arms :: a in counts
    ensures out == Spread(counts, arms)
  {
    out := [];
    for i := 0 to |arms|
      invariant out == Spread(counts, arms[..i])
    {
      assert arms[..i + 1][..i] == arms[..i];
      out := out + Repeat(arms[i], counts[arms[i]]);
    }
    assert arms[..|arms|] == arms;
  }

  /** Floors first, then one more for each favoured arm, then the slots arm by arm. */
  method Apportion(size: nat, shares: Shares) returns (out: seq<string>)
    requires shares.Valid()
    ensures out == Apportioned(size, shares)
  {
    var leftover := CountLeftover(size, shares);
    FavouredAreArms(size, shares);
    var ranked := Sort(shares.arms, ByRemainder(Remainders(size, shares)));
    var counts := BumpEach(Floors(size, shares), ranked[..SliceLength(leftover, |shares.arms|)]);
    out := SpreadOut(counts, shares.arms);
  }

  /* ----- strata ----- */

  datatype Allocation = Allocation(arm: map<string, string>, stratum: map<string, nat>)

  /** By amount, then reference. */
  function ByAmount(): ((string, Paise), (string, Paise)) -> bool {
    (x: (string, Paise), y: (string, Paise)) => x.1 < y.1 || (x.1 == y.1 && Less(x.0, y.0))
  }

  /** By the hash of run seed and reference. */
  function ByDigest(digest: string -> string): (string, string) -> bool {
    (a, b) => Less(digest(a), digest(b))
  }

  function StratumOfRank(rank: nat, n: nat, strata: nat): nat
    requires n > 0 && strata > 0
  {
    var s := rank * strata / n;
    if strata - 1 < s then strata - 1 else s
  }

  /** Strata of the first `k` ranks. */
  function StratumOf(ordered: seq<(string, Paise)>, strata: nat, k: nat): map<string, nat>
    requires k <= |ordered| && strata > 0
  {
    if k == 0 then map[]
    else StratumOf(ordered, strata, k - 1)[ordered[k - 1].0 := StratumOfRank(k - 1, |ordered|, strata)]
  }

  /** References in the order they were first ranked. */
  function Refs(ordered: seq<(string, Paise)>, k: nat): seq<string>
    requires k <= |ordered|
  {
    if k == 0 then []
    else
      var before := Refs(ordered, k - 1);
      if ordered[k - 1].0 in before then before else before + [ordered[k - 1].0]
  }

  function Bucket(refs: seq<string>, stratum: map<string, nat>, s: nat): seq<string> {
    if refs == [] then []
    else
      var last := refs[|refs| - 1];
      Bucket(refs[..|refs| - 1], stratum, s) + (if last in stratum && stratum[last] == s then [last] else [])
  }

  function Dealt(arm: map<string, string>, members: seq<string>, arms: seq<string>): map<string, string>
    requires |members| == |arms|
  {
    if members == [] then arm
    else
      var n := |members| - 1;
      Dealt(arm, members[..n], arms[..n])[members[n] := arms[n]]
  }

  /** What is dealt to a stratum of each size. */
  function Dealer(shares: Shares): nat -> seq<string>
    requires shares.Valid()
  {
    (size: nat) => Apportioned(size, shares)
  }

  function Members(refs: seq<string>, stratum: map<string, nat>, lt: (string, string) -> bool, s: nat): seq<string> {
    Sort(Bucket(refs, stratum, s), lt)
  }

  /** Arms dealt in the first `k` strata; None when a strict zip fails. */
  function DealtUpTo(refs: seq<string>, stratum: map<string, nat>, lt: (string, string) -> bool,
                     deal: nat -> seq<string>, k: nat): Option<map<string, string>>
  {
    if k == 0 then Some(map[])
    else
      var before := DealtUpTo(refs, stratum, lt, deal, k - 1);
      var members := Members(refs, stratum, lt, k - 1);
      var arms := deal(|members|);
      if before.None? || |arms| != |members| then None
      else Some(Dealt(before.value, members, arms))
  }

  function Stratified(episodes: seq<(string, Paise)>, digest: string -> string, shares: Shares, strata: nat)
    : Option<Allocation>
    requires shares.Valid() && strata > 0
  {
    SortPermutes(episodes, ByAmount());
    var ordered := Sort(episodes, ByAmount());
    var stratum := StratumOf(ordered, strata, |ordered|);
    match DealtUpTo(Refs(ordered, |ordered|), stratum, ByDigest(digest), Dealer(shares), strata)
    case None => None
    case Some(arm) => Some(Allocation(arm, stratum))
  }

  lemma {:induction false} RefsAreRanked(ordered: seq<(string, Paise)>, strata: nat, k: nat)
    requires k <= |ordered| && strata > 0
    ensures forall r :: r in Refs(ordered, k) <==> r in StratumOf(ordered, strata, k)
    ensures forall r :: r in Refs(ordered, k) <==> exists i | 0 <= i < k :: ordered[i].0 == r
    ensures forall r <- StratumOf(ordered, strata, k) :: StratumOf(ordered, strata, k)[r] < strata
  {
    if k > 0 {
      RefsAreRanked(ordered, strata, k - 1);
    }
  }

  method RankIntoStrata(ordered: seq<(string, Paise)>, strata: nat) returns (stratum: map<string, nat>, refs: seq<string>)
    requires strata > 0
    ensures stratum == StratumOf(ordered, strata, |ordered|) && refs == Refs(ordered, |ordered|)
  {
    stratum, refs := map[], [];
    for rank := 0 to |ordered|
      invariant stratum == StratumOf(ordered, strata, rank) && refs == Refs(ordered, rank)
    {
      var ref := ordered[rank].0;
      stratum := stratum[ref := StratumOfRank(rank, |ordered|, strata)];
      if ref !in refs {
        refs := refs + [ref];
      }
    }
  }

  lemma BucketGrows(refs: seq<string>, stratum: map<string, nat>, i: nat)
    requires i < |refs| && refs[i] in stratum
    ensures forall s :: Bucket(refs[..i + 1], stratum, s) ==
              Bucket(refs[..i], stratum, s) + (if stratum[refs[i]] == s then [refs[i]] else [])
  {
    assert refs[..i + 1][..i] == refs[..i];
  }

  method FillBuckets(refs: seq<string>, stratum: map<string, nat>) returns (buckets: map<nat, seq<string>>)
    requires forall r <- refs :: r in stratum
    ensures forall s :: s in buckets ==> buckets[s] == Bucket(refs, stratum, s)
    ensures forall s: nat :: s !in buckets ==> Bucket(refs, stratum, s) == []
  {
    buckets := map[];
    for i := 0 to |refs|
      invariant forall s :: s in buckets ==> buckets[s] == Bucket(refs[..i], stratum, s)
      invariant forall s: nat :: s !in buckets ==> Bucket(refs[..i], stratum, s) == []
    {
      BucketGrows(refs, stratum, i);
      var s := stratum[refs[i]];
      buckets := buckets[s := (if s in buckets then buckets[s] else []) + [refs[i]]];
    }
    assert refs[..|refs|] == refs;
  }

  method Deal(arm: map<string, string>, members: seq<string>, arms: seq<string>) returns (r: map<string, string>)
    requires |members| == |arms|
    ensures r == Dealt(arm, members, arms)
  {
    r := arm;
    for i := 0 to |members|
      invariant r == Dealt(arm, members[..i], arms[..i])
    {
      assert members[..i + 1][..i] == members[..i] && arms[..i + 1][..i] == arms[..i];
      r := r[members[i] := arms[i]];
    }
    assert members[..|members|] == members && arms[..|members|] == arms;
  }

  /** One stratum; None where the strict zip would raise. */
  method DealStratum(arm: map<string, string>, members: seq<string>, shares: Shares) returns (r: Option<map<string, string>>)
    requires shares.Valid()
    ensures r == if |Dealer(shares)(|members|)| != |members| then None
                 else Some(Dealt(arm, members, Dealer(shares)(|members|)))
  {
    var arms := Apportion(|members|, shares);
    if |arms| != |members| {
      return None;
    }
    var after := Deal(arm, members, arms);
    return Some(after);
  }

  /** One stratum after another. */
  method DealStrata(buckets: map<nat, seq<string>>, digest: string -> string, shares: Shares, strata: nat,
                    ghost refs: seq<string>, ghost stratum: map<string, nat>)
    returns (r: Option<map<string, string>>)
    requires shares.Valid()
    requires forall s: nat :: (if s in buckets then buckets[s] else []) == Bucket(refs, stratum, s)
    ensures r == DealtUpTo(refs, stratum, ByDigest(digest), Dealer(shares), strata)
  {
    r := Some(map[]);
    for s := 0 to strata
      invariant r.Some? && r == DealtUpTo(refs, stratum, ByDigest(digest), Dealer(shares), s)
    {
      var members := Sort(if s in buckets then buckets[s] else [], ByDigest(digest));
      assert members == Members(refs, stratum, ByDigest(digest), s);
      r := DealStratum(r.value, members, shares);
      if r.None? {
        NoneStays(refs, stratum, ByDigest(digest), Dealer(shares), s + 1, strata);
        return;
      }
    }
  }

  method StratifiedAssignment(episodes: seq<(string, Paise)>, digest: string -> string, shares: Shares, strata: nat)
    returns (r: Option<Allocation>)
    requires shares.Valid() && strata > 0
    ensures r == Stratified(episodes, digest, shares, strata)
  {
    var ordered := Sort(episodes, ByAmount());
    var stratum, refs := RankIntoStrata(ordered, strata);
    RefsAreRanked(ordered, strata, |ordered|);
    var buckets := FillBuckets(refs, stratum);
    var dealt := DealStrata(buckets, digest, shares, strata, refs, stratum);
    if dealt.None? {
      return None;
    }
    return Some(Allocation(dealt.value, stratum));
  }

  lemma {:induction false} NoneStays(refs: seq<string>, stratum: map<string, nat>, lt: (string, string) -> bool,
                                     deal: nat -> seq<string>, k: nat, strata: nat)
    requires k <= strata && DealtUpTo(refs, stratum, lt, deal, k).None?
    ensures DealtUpTo(refs, stratum, lt, deal, strata).None?
    decreases strata - k
  {
    if k < strata {
      NoneStays(refs, stratum, lt, deal, k + 1, strata);
    }
  }
}
