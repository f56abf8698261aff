/** The stratified permutation test on a difference of means. */
module Permutation {
  import opened Domain
  import opened Ratios
  import opened Sorting
  import opened Counting

  function Sum(xs: seq<real>): real {
    if xs == [] then 0.0 else Sum(xs[..|xs| - 1]) + xs[|xs| - 1]
  }

  /** The two arms' values in one stratum. */
  datatype Group = Group(t: seq<real>, c: seq<real>) {
    function Pooled(): seq<real> {
      t + c
    }

    /** Only one arm is present, or none. */
    predicate SingleArm() {
      t == [] || c == []
    }
  }

  /** Values whose stamp is `key`. */
  function Select(values: seq<real>, labels: seq<int>, key: int): seq<real>
    requires |values| == |labels|
  {
    if values == [] then []
    else
      var n := |values| - 1;
      Select(values[..n], labels[..n], key) + (if labels[n] == key then [values[n]] else [])
  }

  /** The groups of the labels `keys`. */
  function GroupsOf(t: seq<real>, c: seq<real>, tLabels: seq<int>, cLabels: seq<int>, keys: seq<int>): (groups: seq<Group>)
    requires |t| == |tLabels| && |c| == |cLabels|
    ensures |groups| == |keys|
    ensures forall i | 0 <= i < |keys| :: groups[i] == Group(Select(t, tLabels, keys[i]), Select(c, cLabels, keys[i]))
  {
    seq(|keys|, i requires 0 <= i < |keys| => Group(Select(t, tLabels, keys[i]), Select(c, cLabels, keys[i])))
  }

  predicate Lower(i: int, j: int) {
    i < j
  }

  function Distinct(labels: seq<int>): seq<int> {
    if labels == [] then []
    else
      var before := Distinct(labels[..|labels| - 1]);
      if labels[|labels| - 1] in before then before else before + [labels[|labels| - 1]]
  }

  /** The labels of both arms, each once, in order. */
  function UniqueKeys(tLabels: seq<int>, cLabels: seq<int>): seq<int> {
    Sort(Distinct(tLabels + cLabels), Lower)
  }

  /** Parallel stratum labels for the two arms, if the design was stratified. */
  type Strata = Option<(seq<int>, seq<int>)>

  predicate Labelled(t: seq<real>, c: seq<real>, strata: Strata) {
    strata.Some? ==> |t| == |strata.value.0| && |c| == |strata.value.1|
  }

  function Groups(t: seq<real>, c: seq<real>, strata: Strata): seq<Group>
    requires Labelled(t, c, strata)
  {
    match strata
    case None => [Group(t, c)]
    case Some((tLabels, cLabels)) => GroupsOf(t, c, tLabels, cLabels, UniqueKeys(tLabels, cLabels))
  }

  /** Rearrangements drawn by the generator: one per resample and stratum. */
  type Shuffle = (nat, nat) -> seq<real>

  ghost predicate Rearranges(shuffle: Shuffle, groups: seq<Group>) {
    forall r: nat, g: nat | g < |groups| :: multiset(shuffle(r, g)) == multiset(groups[g].Pooled())
  }

  /** What stratum `g` adds to the two sums in resample `r`. */
  function DrawT(groups: seq<Group>, shuffle: Shuffle, r: nat, g: nat): real
    requires g < |groups| && Rearranges(shuffle, groups)
  {
    if groups[g].SingleArm() then Sum(groups[g].t)
    else
      SameLength(shuffle(r, g), groups[g].Pooled());
      Sum(shuffle(r, g)[..|groups[g].t|])
  }

  function DrawC(groups: seq<Group>, shuffle: Shuffle, r: nat, g: nat): real
    requires g < |groups| && Rearranges(shuffle, groups)
  {
    if groups[g].SingleArm() then Sum(groups[g].c)
    else
      SameLength(shuffle(r, g), groups[g].Pooled());
      Sum(shuffle(r, g)[|groups[g].t|..])
  }

  lemma SameLength(xs: seq<real>, ys: seq<real>)
    requires multiset(xs) == multiset(ys)
    ensures |xs| == |ys|
  {
    assert |multiset(xs)| == |multiset(ys)|;
  }

  function TotalT(groups: seq<Group>, shuffle: Shuffle, r: nat, k: nat): real
    requires k <= |groups| && Rearranges(shuffle, groups)
  {
    if k == 0 then 0.0 else TotalT(groups, shuffle, r, k - 1) + DrawT(groups, shuffle, r, k - 1)
  }

  function TotalC(groups: seq<Group>, shuffle: Shuffle, r: nat, k: nat): real
    requires k <= |groups| && Rearranges(shuffle, groups)
  {
    if k == 0 then 0.0 else TotalC(groups, shuffle, r, k - 1) + DrawC(groups, shuffle, r, k - 1)
  }

  /** Adds one stratum to the running sums of every resample, in place. */
  method AddStratum(tSums: array<real>, cSums: array<real>, groups: seq<Group>, shuffle: Shuffle, g: nat)
    requires g < |groups| && Rearranges(shuffle, groups)
    requires tSums != cSums && tSums.Length == cSums.Length
    modifies tSums, cSums
    ensures forall r | 0 <= r < tSums.Length ::
              && tSums[r] == old(tSums[r]) + DrawT(groups, shuffle, r, g)
              && cSums[r] == old(cSums[r]) + DrawC(groups, shuffle, r, g)
  {
    var n := |groups[g].t|;
    for r := 0 to tSums.Length
      invariant forall q | 0 <= q < r ::
                  && tSums[q] == old(tSums[q]) + DrawT(groups, shuffle, q, g)
                  && cSums[q] == old(cSums[q]) + DrawC(groups, shuffle, q, g)
      invariant forall q | r <= q < tSums.Length :: tSums[q] == old(tSums[q]) && cSums[q] == old(cSums[q])
    {
      if groups[g].SingleArm() {
        tSums[r] := tSums[r] + Sum(groups[g].t);
        cSums[r] := cSums[r] + Sum(groups[g].c);
      } else {
        var drawn := shuffle(r, g);
        SameLength(drawn, groups[g].Pooled());
        tSums[r] := tSums[r] + Sum(drawn[..n]);
        cSums[r] := cSums[r] + Sum(drawn[n..]);
      }
    }
  }

  /** The difference of two means. */
  function MeanGap(tSum: real, cSum: real, tSize: nat, cSize: nat): real
    requires tSize > 0 && cSize > 0
  {
    tSum / tSize as real - cSum / cSize as real
  }

  function Null(groups: seq<Group>, shuffle: Shuffle, r: nat, tSize: nat, cSize: nat): real
    requires Rearranges(shuffle, groups) && tSize > 0 && cSize > 0
  {
    MeanGap(TotalT(groups, shuffle, r, |groups|), TotalC(groups, shuffle, r, |groups|), tSize, cSize)
  }

  function Nulls(groups: seq<Group>, shuffle: Shuffle, tSize: nat, cSize: nat, resamples: nat): (xs: seq<real>)
    requires Rearranges(shuffle, groups) && tSize > 0 && cSize > 0
    ensures |xs| == resamples
  {
    if resamples == 0 then []
    else Nulls(groups, shuffle, tSize, cSize, resamples - 1) + [Null(groups, shuffle, resamples - 1, tSize, cSize)]
  }

  /** How many of `xs` are at least as far from zero as `bar`. */
  function AtLeast(xs: seq<real>, bar: real): (n: nat)
    ensures n <= |xs|
  {
    if xs == [] then 0 else AtLeast(xs[..|xs| - 1], bar) + (if Abs(xs[|xs| - 1]) >= bar then 1 else 0)
  }

  function PValue(observed: real, nulls: seq<real>): real {
    (AtLeast(nulls, Abs(observed)) + 1) as real / (|nulls| + 1) as real
  }

  function Observed(t: seq<real>, c: seq<real>): real
    requires t != [] && c != []
  {
    MeanGap(Sum(t), Sum(c), |t|, |c|)
  }

  method GroupByStratum(t: seq<real>, c: seq<real>, strata: Strata) returns (groups: seq<Group>)
    requires Labelled(t, c, strata)
    ensures groups == Groups(t, c, strata)
  {
    if strata.None? {
      return [Group(t, c)];
    }
    var (tLabels, cLabels) := strata.value;
    var keys := UniqueKeys(tLabels, cLabels);
    groups := [];
    for k := 0 to |keys|
      invariant groups == GroupsOf(t, c, tLabels, cLabels, keys[..k])
    {
      assert keys[..k + 1] == keys[..k] + [keys[k]];
      groups := groups + [Group(Select(t, tLabels, keys[k]), Select(c, cLabels, keys[k]))];
    }
    assert keys[..|keys|] == keys;
  }

  method Accumulate(groups: seq<Group>, shuffle: Shuffle, resamples: nat) returns (tSums: array<real>, cSums: array<real>)
    requires Rearranges(shuffle, groups)
    ensures tSums.Length == cSums.Length == resamples
    ensures forall r | 0 <= r < resamples ::
              tSums[r] == TotalT(groups, shuffle, r, |groups|) && cSums[r] == TotalC(groups, shuffle, r, |groups|)
  {
    tSums := new real[resamples](_ => 0.0);
    cSums := new real[resamples](_ => 0.0);
    for g := 0 to |groups|
      invariant fresh(tSums) && fresh(cSums)
      invariant forall r | 0 <= r < resamples ::
                  tSums[r] == TotalT(groups, shuffle, r, g) && cSums[r] == TotalC(groups, shuffle, r, g)
    {
      AddStratum(tSums, cSums, groups, shuffle, g);
    }
  }

  method CountHits(ghost groups: seq<Group>, ghost shuffle: Shuffle, tSums: array<real>, cSums: array<real>,
                   tSize: nat, cSize: nat, bar: real) returns (hits: nat)
    requires Rearranges(shuffle, groups) && tSize > 0 && cSize > 0 && tSums.Length == cSums.Length
    requires forall r | 0 <= r < tSums.Length ::
               tSums[r] == TotalT(groups, shuffle, r, |groups|) && cSums[r] == TotalC(groups, shuffle, r, |groups|)
    ensures hits == AtLeast(Nulls(groups, shuffle, tSize, cSize, tSums.Length), bar)
  {
    hits := 0;
    for r := 0 to tSums.Length
      invariant hits == AtLeast(Nulls(groups, shuffle, tSize, cSize, r), bar)
    {
      var drawn := MeanGap(tSums[r], cSums[r], tSize, cSize);
      ghost var before := Nulls(groups, shuffle, tSize, cSize, r);
      assert (before + [drawn])[..r] == before;
      if Abs(drawn) >= bar {
        hits := hits + 1;
      }
    }
  }

  /** Groups by stratum, accumulates stratum by stratum, then counts. */
  method PermutationP(t: seq<real>, c: seq<real>, strata: Strata, shuffle: Shuffle, resamples: nat) returns (p: real)
    requires Labelled(t, c, strata) && Rearranges(shuffle, Groups(t, c, strata))
    ensures p == if t == [] || c == [] then 1.0
                 else PValue(Observed(t, c), Nulls(Groups(t, c, strata), shuffle, |t|, |c|, resamples))
  {
    if t == [] || c == [] {
      return 1.0;
    }
    var groups := GroupByStratum(t, c, strata);
    var tSums, cSums := Accumulate(groups, shuffle, resamples);
    var hits := CountHits(groups, shuffle, tSums, cSums, |t|, |c|, Abs(Observed(t, c)));
    return (hits + 1) as real / (resamples + 1) as real;
  }

  /* ----- relabelling conserves ----- */

  lemma {:induction false} SumSplits(xs: seq<real>, ys: seq<real>)
    ensures Sum(xs + ys) == Sum(xs) + Sum(ys)
  {
    if ys == [] {
      assert xs + ys == xs;
    } else {
      assert (xs + ys)[..|xs + ys| - 1] == xs + ys[..|ys| - 1];
      SumSplits(xs, ys[..|ys| - 1]);
    }
  }

  predicate Less(x: real, y: real) {
    x < y
  }

  lemma {:induction false} SumOfInsert(x: real, ys: seq<real>)
    ensures Sum(Insert(x, ys, Less)) == x + Sum(ys)
  {
    if ys != [] && Less(ys[0], x) {
      SumOfInsert(x, ys[1..]);
      SumSplits([ys[0]], Insert(x, ys[1..], Less));
      SumSplits([ys[0]], ys[1..]);
      assert ys == [ys[0]] + ys[1..];
      assert Sum([ys[0]]) == ys[0];
    } else {
      SumSplits([x], ys);
      assert Sum([x]) == x;
      assert ys == [] ==> [x] + ys == [x];
    }
  }

  lemma {:induction false} SumOfSort(xs: seq<real>)
    ensures Sum(Sort(xs, Less)) == Sum(xs)
  {
    if xs != [] {
      SumOfSort(xs[1..]);
      SumOfInsert(xs[0], Sort(xs[1..], Less));
      SumSplits([xs[0]], xs[1..]);
      assert xs == [xs[0]] + xs[1..];
      assert Sum([xs[0]]) == xs[0];
    }
  }

  lemma SumForgetsOrder(xs: seq<real>, ys: seq<real>)
    requires multiset(xs) == multiset(ys)
    ensures Sum(xs) == Sum(ys)
  {
    SortForgetsOrder(xs, ys, Less);
    SumOfSort(xs);
    SumOfSort(ys);
  }

  /* ----- a resample is a relabelling ----- */

  /** The values stratum `g` gives the first arm in resample `r`, drawn even where only one
      arm is present. */
  function DrawnT(groups: seq<Group>, shuffle: Shuffle, r: nat, g: nat): seq<real>
    requires g < |groups| && Rearranges(shuffle, groups)
  {
    SameLength(shuffle(r, g), groups[g].Pooled());
    shuffle(r, g)[..|groups[g].t|]
  }

  function DrawnC(groups: seq<Group>, shuffle: Shuffle, r: nat, g: nat): seq<real>
    requires g < |groups| && Rearranges(shuffle, groups)
  {
    SameLength(shuffle(r, g), groups[g].Pooled());
    shuffle(r, g)[|groups[g].t|..]
  }

  lemma DrawnIsRearranged(groups: seq<Group>, shuffle: Shuffle, r: nat, g: nat)
    requires g < |groups| && Rearranges(shuffle, groups)
    ensures |DrawnT(groups, shuffle, r, g)| == |groups[g].t| && |DrawnC(groups, shuffle, r, g)| == |groups[g].c|
    ensures multiset(DrawnT(groups, shuffle, r, g)) + multiset(DrawnC(groups, shuffle, r, g)) ==
            multiset(groups[g].t) + multiset(groups[g].c)
    ensures groups[g].t == [] || groups[g].c == [] ==>
              && multiset(DrawnT(groups, shuffle, r, g)) == multiset(groups[g].t)
              && multiset(DrawnC(groups, shuffle, r, g)) == multiset(groups[g].c)
  {
    var drawn := shuffle(r, g);
    SameLength(drawn, groups[g].Pooled());
    Splits(drawn, |groups[g].t|);
    if groups[g].t == [] {
      assert drawn[..0] == [] && drawn[0..] == drawn;
    } else if groups[g].c == [] {
      assert drawn[..|drawn|] == drawn && drawn[|drawn|..] == [];
    }
  }

  lemma Splits(xs: seq<real>, k: nat)
    requires k <= |xs|
    ensures multiset(xs[..k]) + multiset(xs[k..]) == multiset(xs)
  {
    assert xs == xs[..k] + xs[k..];
  }

  /** Leaving out the draw where one arm is alone changes no sum. */
  lemma SingleArmsNeedNoDraw(groups: seq<Group>, shuffle: Shuffle, r: nat, g: nat)
    requires g < |groups| && Rearranges(shuffle, groups)
    ensures DrawT(groups, shuffle, r, g) == Sum(DrawnT(groups, shuffle, r, g))
    ensures DrawC(groups, shuffle, r, g) == Sum(DrawnC(groups, shuffle, r, g))
  {
    if groups[g].SingleArm() {
      DrawnIsRearranged(groups, shuffle, r, g);
      SumForgetsOrder(DrawnT(groups, shuffle, r, g), groups[g].t);
      SumForgetsOrder(DrawnC(groups, shuffle, r, g), groups[g].c);
    }
  }

  /* ----- strata, one after another ----- */

  function Flat(parts: seq<seq<real>>): seq<real> {
    if parts == [] then [] else Flat(parts[..|parts| - 1]) + parts[|parts| - 1]
  }

  /** The first arm as it was, by stratum. */
  function OldT(groups: seq<Group>): (parts: seq<seq<real>>)
    ensures |parts| == |groups| && forall g | 0 <= g < |groups| :: parts[g] == groups[g].t
  {
    seq(|groups|, g requires 0 <= g < |groups| => groups[g].t)
  }

  function OldC(groups: seq<Group>): (parts: seq<seq<real>>)
    ensures |parts| == |groups| && forall g | 0 <= g < |groups| :: parts[g] == groups[g].c
  {
    seq(|groups|, g requires 0 <= g < |groups| => groups[g].c)
  }

  /** The first arm as resample `r` relabels it, by stratum. */
  function NewT(groups: seq<Group>, shuffle: Shuffle, r: nat): (parts: seq<seq<real>>)
    requires Rearranges(shuffle, groups)
    ensures |parts| == |groups| && forall g | 0 <= g < |groups| :: parts[g] == DrawnT(groups, shuffle, r, g)
  {
    seq(|groups|, g requires 0 <= g < |groups| && Rearranges(shuffle, groups) => DrawnT(groups, shuffle, r, g))
  }

  function NewC(groups: seq<Group>, shuffle: Shuffle, r: nat): (parts: seq<seq<real>>)
    requires Rearranges(shuffle, groups)
    ensures |parts| == |groups| && forall g | 0 <= g < |groups| :: parts[g] == DrawnC(groups, shuffle, r, g)
  {
    seq(|groups|, g requires 0 <= g < |groups| && Rearranges(shuffle, groups) => DrawnC(groups, shuffle, r, g))
  }

  lemma {:induction false} TotalsAreOfTheNew(groups: seq<Group>, shuffle: Shuffle, r: nat, k: nat)
    requires k <= |groups| && Rearranges(shuffle, groups)
    ensures TotalT(groups, shuffle, r, k) == Sum(Flat(NewT(groups, shuffle, r)[..k]))
    ensures TotalC(groups, shuffle, r, k) == Sum(Flat(NewC(groups, shuffle, r)[..k]))
  {
    if k > 0 {
      TotalsAreOfTheNew(groups, shuffle, r, k - 1);
      SingleArmsNeedNoDraw(groups, shuffle, r, k - 1);
      SumFlat(NewT(groups, shuffle, r), k);
      SumFlat(NewC(groups, shuffle, r), k);
    }
  }

  lemma SumFlat(parts: seq<seq<real>>, k: nat)
    requires 0 < k <= |parts|
    ensures Sum(Flat(parts[..k])) == Sum(Flat(parts[..k - 1])) + Sum(parts[k - 1])
  {
    assert parts[..k][..k - 1] == parts[..k - 1];
    SumSplits(Flat(parts[..k - 1]), parts[k - 1]);
  }

  lemma {:induction false} FlatKeepsLength(xs: seq<seq<real>>, ys: seq<seq<real>>)
    requires |xs| == |ys| && forall g | 0 <= g < |xs| :: |xs[g]| == |ys[g]|
    ensures |Flat(xs)| == |Flat(ys)|
  {
    if xs != [] {
      FlatKeepsLength(xs[..|xs| - 1], ys[..|ys| - 1]);
    }
  }

  /** Values that stay among two arms in every stratum stay among them. */
  lemma {:induction false} FlatKeepsValues(xs: seq<seq<real>>, vs: seq<seq<real>>, ys: seq<seq<real>>, ws: seq<seq<real>>)
    requires |xs| == |vs| == |ys| == |ws|
    requires forall g | 0 <= g < |xs| :: multiset(xs[g]) + multiset(vs[g]) == multiset(ys[g]) + multiset(ws[g])
    ensures multiset(Flat(xs)) + multiset(Flat(vs)) == multiset(Flat(ys)) + multiset(Flat(ws))
  {
    if xs != [] {
      var n := |xs| - 1;
      FlatKeepsValues(xs[..n], vs[..n], ys[..n], ws[..n]);
      FlatBag(xs);
      FlatBag(vs);
      FlatBag(ys);
      FlatBag(ws);
      AddBags(multiset(Flat(xs[..n])), multiset(Flat(vs[..n])), multiset(Flat(ys[..n])), multiset(Flat(ws[..n])),
              multiset(xs[n]), multiset(vs[n]), multiset(ys[n]), multiset(ws[n]));
    }
  }

  lemma AddBags(x: multiset<real>, v: multiset<real>, y: multiset<real>, w: multiset<real>,
                dx: multiset<real>, dv: multiset<real>, dy: multiset<real>, dw: multiset<real>)
    requires x + v == y + w && dx + dv == dy + dw
    ensures (x + dx) + (v + dv) == (y + dy) + (w + dw)
  {
    forall e ensures ((x + dx) + (v + dv))[e] == ((y + dy) + (w + dw))[e] {
      assert (x + v)[e] == (y + w)[e] && (dx + dv)[e] == (dy + dw)[e];
    }
  }

  lemma FlatBag(parts: seq<seq<real>>)
    requires parts != []
    ensures multiset(Flat(parts)) == multiset(Flat(parts[..|parts| - 1])) + multiset(parts[|parts| - 1])
  {
  }

  /* ----- strata partition the arms ----- */

  /** The values under each key. */
  function Parts(values: seq<real>, labels: seq<int>, keys: seq<int>): (parts: seq<seq<real>>)
    requires |values| == |labels|
    ensures |parts| == |keys| && forall k | 0 <= k < |keys| :: parts[k] == Select(values, labels, keys[k])
  {
    seq(|keys|, k requires 0 <= k < |keys| => Select(values, labels, keys[k]))
  }

  lemma SelectGrows(values: seq<real>, labels: seq<int>, x: real, stamp: int, key: int)
    requires |values| == |labels|
    ensures Select(values + [x], labels + [stamp], key) == Select(values, labels, key) + (if stamp == key then [x] else [])
  {
    assert (values + [x])[..|values|] == values && (labels + [stamp])[..|labels|] == labels;
  }

  /** One value more, put in one part, is held once. */
  lemma {:induction false} OneMoreValue(before: seq<seq<real>>, after: seq<seq<real>>, x: real, i: nat)
    requires i < |before| == |after| && after[i] == before[i] + [x]
    requires forall k | 0 <= k < |before| && k != i :: after[k] == before[k]
    ensures multiset(Flat(after)) == multiset(Flat(before)) + multiset{x}
  {
    var n := |before| - 1;
    FlatBag(before);
    FlatBag(after);
    if i < n {
      OneMoreValue(before[..n], after[..n], x, i);
      SwapBags(multiset(Flat(before[..n])), multiset{x}, multiset(before[n]));
    } else {
      assert before[..n] == after[..n];
      OneMoreInBag(before[n], x);
      SwapBags(multiset(Flat(before[..n])), multiset(before[n]), multiset{x});
    }
  }

  lemma SwapBags(a: multiset<real>, b: multiset<real>, c: multiset<real>)
    ensures (a + b) + c == (a + c) + b == a + (b + c)
  {
  }

  lemma OneMoreInBag(xs: seq<real>, x: real)
    ensures multiset(xs + [x]) == multiset(xs) + multiset{x}
  {
  }

  lemma {:induction false} NothingJoined(parts: seq<seq<real>>)
    requires forall k | 0 <= k < |parts| :: parts[k] == []
    ensures Flat(parts) == []
  {
    if parts != [] {
      NothingJoined(parts[..|parts| - 1]);
    }
  }

  /** Every label is one of the keys. */
  ghost predicate Covered(labels: seq<int>, keys: seq<int>) {
    forall l | 0 <= l < |labels| :: labels[l] in keys
  }

  /** Distinct labels that cover every value split them, losing and repeating nothing. */
  lemma {:induction false} StrataPartition(values: seq<real>, labels: seq<int>, keys: seq<int>)
    requires |values| == |labels| && Covered(labels, keys)
    requires forall i, j | 0 <= i < j < |keys| :: keys[i] != keys[j]
    ensures multiset(Flat(Parts(values, labels, keys))) == multiset(values)
  {
    if values == [] {
      NothingJoined(Parts(values, labels, keys));
    } else {
      var n := |values| - 1;
      var rest, marks := values[..n], labels[..n];
      assert values == rest + [values[n]] && labels == marks + [labels[n]];
      assert Covered(marks, keys) by {
        assert forall l | 0 <= l < n :: marks[l] == labels[l];
      }
      StrataPartition(rest, marks, keys);
      var i :| 0 <= i < |keys| && keys[i] == labels[n];
      forall k | 0 <= k < |keys|
        ensures Parts(values, labels, keys)[k] == Parts(rest, marks, keys)[k] + (if k == i then [values[n]] else [])
      {
        SelectGrows(rest, marks, values[n], labels[n], keys[k]);
      }
      OneMoreValue(Parts(rest, marks, keys), Parts(values, labels, keys), values[n], i);
    }
  }

  lemma {:induction false} DistinctCovers(labels: seq<int>)
    ensures forall i, j | 0 <= i < j < |Distinct(labels)| :: Distinct(labels)[i] != Distinct(labels)[j]
    ensures forall l :: l in Distinct(labels) <==> l in labels
  {
    if labels != [] {
      DistinctCovers(labels[..|labels| - 1]);
      assert labels == labels[..|labels| - 1] + [labels[|labels| - 1]];
    }
  }

  /** The keys are every label of either arm, in strictly rising order. */
  lemma UniqueKeysCover(tLabels: seq<int>, cLabels: seq<int>)
    ensures var keys := UniqueKeys(tLabels, cLabels);
            && (forall i, j | 0 <= i < j < |keys| :: keys[i] < keys[j])
            && (forall l :: l in keys <==> l in tLabels || l in cLabels)
  {
    var distinct, keys := Distinct(tLabels + cLabels), UniqueKeys(tLabels, cLabels);
    DistinctCovers(tLabels + cLabels);
    SortPermutes(distinct, Lower);
    SortAscends(distinct, Lower);
    forall l ensures l in keys <==> l in tLabels || l in cLabels {
      assert l in multiset(keys) <==> l in multiset(distinct);
      assert l in tLabels + cLabels <==> l in tLabels || l in cLabels;
    }
    DistinctForgetsOrder(distinct, keys);
    forall i, j | 0 <= i < j < |keys| ensures keys[i] < keys[j] {
      assert !Lower(keys[j], keys[i]);
    }
  }

  lemma KeysCover(labels: seq<int>, keys: seq<int>)
    requires forall l <- labels :: l in keys
    ensures Covered(labels, keys)
  {
    forall l | 0 <= l < |labels| ensures labels[l] in keys {
      var x := labels[l];
      assert x in labels;
    }
  }

  /** The strata hold the two arms' values, each once. */
  lemma GroupsHoldEverything(t: seq<real>, c: seq<real>, strata: Strata)
    requires Labelled(t, c, strata)
    ensures var groups := Groups(t, c, strata);
            multiset(Flat(OldT(groups))) == multiset(t) && multiset(Flat(OldC(groups))) == multiset(c)
  {
    var groups := Groups(t, c, strata);
    match strata
    case None =>
      assert OldT(groups) == [t] && OldC(groups) == [c];
      FlatOfOne(t);
      FlatOfOne(c);
    case Some((tLabels, cLabels)) =>
      var keys := UniqueKeys(tLabels, cLabels);
      UniqueKeysCover(tLabels, cLabels);
      KeysCover(tLabels, keys);
      KeysCover(cLabels, keys);
      assert OldT(groups) == Parts(t, tLabels, keys) && OldC(groups) == Parts(c, cLabels, keys);
      StrataPartition(t, tLabels, keys);
      StrataPartition(c, cLabels, keys);
  }

  lemma FlatOfOne(xs: seq<real>)
    ensures Flat([xs]) == xs
  {
    assert Flat([xs]) == Flat([]) + xs;
  }

  /** The mean is what, taken once for each value, adds up to all of them. */
  ghost predicate IsMean(mean: real, xs: seq<real>) {
    IsQuotient(mean, Sum(xs), |xs|)
  }

  /** What is tested is the first arm's mean less the second's. */
  lemma GapIsOfTheMeans(t: seq<real>, c: seq<real>, tMean: real, cMean: real)
    requires t != [] && c != [] && IsMean(tMean, t) && IsMean(cMean, c)
    ensures Observed(t, c) == tMean - cMean
  {
    QuotientExactly(tMean, Sum(t), |t|);
    QuotientExactly(cMean, Sum(c), |c|);
  }

  /** The arms as resample `r` relabels them, all strata together. */
  function ArmT(groups: seq<Group>, shuffle: Shuffle, r: nat): seq<real>
    requires Rearranges(shuffle, groups)
  {
    Flat(NewT(groups, shuffle, r))
  }

  function ArmC(groups: seq<Group>, shuffle: Shuffle, r: nat): seq<real>
    requires Rearranges(shuffle, groups)
  {
    Flat(NewC(groups, shuffle, r))
  }

  /** One arm of each size, holding between them what `t` and `c` hold. */
  ghost predicate Deals(newT: seq<real>, newC: seq<real>, t: seq<real>, c: seq<real>) {
    && |newT| == |t| && |newC| == |c|
    && multiset(newT) + multiset(newC) == multiset(t) + multiset(c)
  }

  ghost predicate SameArms(newT: seq<real>, newC: seq<real>, t: seq<real>, c: seq<real>) {
    multiset(newT) == multiset(t) && multiset(newC) == multiset(c)
  }

  ghost predicate NoneMixed(groups: seq<Group>) {
    forall g | 0 <= g < |groups| :: groups[g].t == [] || groups[g].c == []
  }

  lemma DrawsRearrange(groups: seq<Group>, shuffle: Shuffle, r: nat)
    requires Rearranges(shuffle, groups)
    ensures Deals(ArmT(groups, shuffle, r), ArmC(groups, shuffle, r), Flat(OldT(groups)), Flat(OldC(groups)))
  {
    var newT, newC, oldT, oldC := NewT(groups, shuffle, r), NewC(groups, shuffle, r), OldT(groups), OldC(groups);
    forall g | 0 <= g < |groups|
      ensures |newT[g]| == |oldT[g]| && |newC[g]| == |oldC[g]|
      ensures multiset(newT[g]) + multiset(newC[g]) == multiset(oldT[g]) + multiset(oldC[g])
    {
      DrawnIsRearranged(groups, shuffle, r, g);
    }
    FlatKeepsLength(newT, oldT);
    FlatKeepsLength(newC, oldC);
    FlatKeepsValues(newT, newC, oldT, oldC);
  }

  lemma SingleArmsStay(groups: seq<Group>, shuffle: Shuffle, r: nat)
    requires Rearranges(shuffle, groups) && NoneMixed(groups)
    ensures SameArms(ArmT(groups, shuffle, r), ArmC(groups, shuffle, r), Flat(OldT(groups)), Flat(OldC(groups)))
  {
    var newT, newC, oldT, oldC := NewT(groups, shuffle, r), NewC(groups, shuffle, r), OldT(groups), OldC(groups);
    forall g | 0 <= g < |groups| ensures multiset(newT[g]) == multiset(oldT[g]) && multiset(newC[g]) == multiset(oldC[g]) {
      DrawnIsRearranged(groups, shuffle, r, g);
    }
    FlatKeepsBag(newT, oldT);
    FlatKeepsBag(newC, oldC);
  }

  lemma {:induction false} FlatKeepsBag(xs: seq<seq<real>>, ys: seq<seq<real>>)
    requires |xs| == |ys| && forall g | 0 <= g < |xs| :: multiset(xs[g]) == multiset(ys[g])
    ensures multiset(Flat(xs)) == multiset(Flat(ys))
  {
    if xs != [] {
      FlatKeepsBag(xs[..|xs| - 1], ys[..|ys| - 1]);
      FlatBag(xs);
      FlatBag(ys);
    }
  }

  /** Every resample deals the two arms' values anew, each stratum's among its own, into arms
      of the sizes they had; where no stratum holds both arms they are the arms there were. */
  lemma ResamplesRelabel(t: seq<real>, c: seq<real>, strata: Strata, shuffle: Shuffle, r: nat)
    requires Labelled(t, c, strata) && Rearranges(shuffle, Groups(t, c, strata))
    ensures Deals(ArmT(Groups(t, c, strata), shuffle, r), ArmC(Groups(t, c, strata), shuffle, r), t, c)
    ensures NoneMixed(Groups(t, c, strata)) ==>
              SameArms(ArmT(Groups(t, c, strata), shuffle, r), ArmC(Groups(t, c, strata), shuffle, r), t, c)
  {
    var groups := Groups(t, c, strata);
    GroupsHoldEverything(t, c, strata);
    DrawsRearrange(groups, shuffle, r);
    SameLength(Flat(OldT(groups)), t);
    SameLength(Flat(OldC(groups)), c);
    if NoneMixed(groups) {
      SingleArmsStay(groups, shuffle, r);
    }
  }

  lemma TotalsAreOfTheArms(groups: seq<Group>, shuffle: Shuffle, r: nat)
    requires Rearranges(shuffle, groups)
    ensures TotalT(groups, shuffle, r, |groups|) == Sum(ArmT(groups, shuffle, r))
    ensures TotalC(groups, shuffle, r, |groups|) == Sum(ArmC(groups, shuffle, r))
  {
    TotalsAreOfTheNew(groups, shuffle, r, |groups|);
    assert NewT(groups, shuffle, r)[..|groups|] == NewT(groups, shuffle, r);
    assert NewC(groups, shuffle, r)[..|groups|] == NewC(groups, shuffle, r);
  }

  /** A resample's statistic is the observed one's, of the arms it deals. */
  lemma NullIsOfTheArms(t: seq<real>, c: seq<real>, strata: Strata, shuffle: Shuffle, r: nat)
    requires t != [] && c != [] && Labelled(t, c, strata) && Rearranges(shuffle, Groups(t, c, strata))
    ensures var (newT, newC) := (ArmT(Groups(t, c, strata), shuffle, r), ArmC(Groups(t, c, strata), shuffle, r));
            && newT != [] && newC != []
            && Null(Groups(t, c, strata), shuffle, r, |t|, |c|) == Observed(newT, newC)
  {
    ResamplesRelabel(t, c, strata, shuffle, r);
    TotalsAreOfTheArms(Groups(t, c, strata), shuffle, r);
  }

  lemma DealsKeepSums(newT: seq<real>, newC: seq<real>, t: seq<real>, c: seq<real>)
    requires Deals(newT, newC, t, c)
    ensures Sum(newT) + Sum(newC) == Sum(t) + Sum(c)
    ensures SameArms(newT, newC, t, c) ==> Sum(newT) == Sum(t) && Sum(newC) == Sum(c)
  {
    SumSplits(newT, newC);
    SumSplits(t, c);
    SumForgetsOrder(newT + newC, t + c);
    if SameArms(newT, newC, t, c) {
      SumForgetsOrder(newT, t);
      SumForgetsOrder(newC, c);
    }
  }

  /** So the two sums add up to the two arms' values, and are those values when no stratum
      holds both arms. */
  lemma ResamplesConserve(t: seq<real>, c: seq<real>, strata: Strata, shuffle: Shuffle, r: nat)
    requires Labelled(t, c, strata) && Rearranges(shuffle, Groups(t, c, strata))
    ensures var groups := Groups(t, c, strata);
            && TotalT(groups, shuffle, r, |groups|) + TotalC(groups, shuffle, r, |groups|) == Sum(t) + Sum(c)
            && (NoneMixed(groups) ==>
                  TotalT(groups, shuffle, r, |groups|) == Sum(t) && TotalC(groups, shuffle, r, |groups|) == Sum(c))
  {
    var groups := Groups(t, c, strata);
    ResamplesRelabel(t, c, strata, shuffle, r);
    TotalsAreOfTheArms(groups, shuffle, r);
    DealsKeepSums(ArmT(groups, shuffle, r), ArmC(groups, shuffle, r), t, c);
  }

  /** When no stratum holds both arms, nothing can be relabelled and p is one. */
  lemma NothingToRelabel(t: seq<real>, c: seq<real>, strata: Strata, shuffle: Shuffle, resamples: nat)
    requires t != [] && c != [] && Labelled(t, c, strata) && Rearranges(shuffle, Groups(t, c, strata))
    requires NoneMixed(Groups(t, c, strata))
    ensures PValue(Observed(t, c), Nulls(Groups(t, c, strata), shuffle, |t|, |c|, resamples)) == 1.0
  {
    AllResamplesEqual(t, c, strata, shuffle, resamples);
    AllHits(Observed(t, c), Nulls(Groups(t, c, strata), shuffle, |t|, |c|, resamples));
  }

  lemma AllHits(observed: real, nulls: seq<real>)
    requires AtLeast(nulls, Abs(observed)) == |nulls|
    ensures PValue(observed, nulls) == 1.0
  {
    WholeOverWhole(|nulls| + 1);
  }

  lemma {:induction false} AllResamplesEqual(t: seq<real>, c: seq<real>, strata: Strata, shuffle: Shuffle, resamples: nat)
    requires t != [] && c != [] && Labelled(t, c, strata) && Rearranges(shuffle, Groups(t, c, strata))
    requires NoneMixed(Groups(t, c, strata))
    ensures AtLeast(Nulls(Groups(t, c, strata), shuffle, |t|, |c|, resamples), Abs(Observed(t, c))) == resamples
  {
    if resamples > 0 {
      var groups := Groups(t, c, strata);
      AllResamplesEqual(t, c, strata, shuffle, resamples - 1);
      ResamplesConserve(t, c, strata, shuffle, resamples - 1);
      var before := Nulls(groups, shuffle, |t|, |c|, resamples - 1);
      var drawn := Null(groups, shuffle, resamples - 1, |t|, |c|);
      assert drawn == Observed(t, c);
      assert (before + [drawn])[..resamples - 1] == before;
    }
  }

  /* ----- the p-value is a rank ----- */

  /** At least as far from zero as `bar`, on either side. */
  function FarOut(bar: real): real -> bool {
    x => x >= bar || x <= -bar
  }

  lemma {:induction false} AtLeastCountsTheFarOut(xs: seq<real>, bar: real)
    requires bar >= 0.0
    ensures AtLeast(xs, bar) == |Places(xs, FarOut(bar))|
  {
    if xs != [] {
      AtLeastCountsTheFarOut(xs[..|xs| - 1], bar);
      PlacesGrow(xs, FarOut(bar));
    }
  }

  /** How many of `xs` have at most `k` of `all` at least as far out as themselves. */
  function LowRanked(xs: seq<real>, all: seq<real>, k: nat): nat {
    if xs == [] then 0
    else LowRanked(xs[..|xs| - 1], all, k) + (if AtLeast(all, Abs(xs[|xs| - 1])) <= k then 1 else 0)
  }

  lemma {:induction false} LowestOfTheLow(xs: seq<real>, all: seq<real>, k: nat) returns (x: real)
    requires LowRanked(xs, all, k) > 0
    ensures AtLeast(all, Abs(x)) <= k
    ensures LowRanked(xs, all, k) <= AtLeast(xs, Abs(x))
  {
    var n := |xs| - 1;
    var last := xs[n];
    if LowRanked(xs[..n], all, k) == 0 {
      x := last;
    } else {
      x := LowestOfTheLow(xs[..n], all, k);
      if AtLeast(all, Abs(last)) <= k && Abs(last) < Abs(x) {
        LowerBarTakesMore(xs[..n], Abs(last), Abs(x));
        x := last;
      }
    }
  }

  lemma {:induction false} LowerBarTakesMore(xs: seq<real>, low: real, high: real)
    requires low <= high
    ensures AtLeast(xs, high) <= AtLeast(xs, low)
  {
    if xs != [] {
      LowerBarTakesMore(xs[..|xs| - 1], low, high);
    }
  }

  /** Of any statistics whatever, at most `k` have `k` or fewer at least as extreme. */
  lemma FewRankLow(xs: seq<real>, k: nat)
    ensures LowRanked(xs, xs, k) <= k
  {
    if LowRanked(xs, xs, k) > 0 {
      var x := LowestOfTheLow(xs, xs, k);
    }
  }

  /** The observed statistic's p-value is its rank among itself and the resamples over their
      number. So if every one of them was as likely to be the observed one, a p-value of
      `k` in `N` or less comes up for at most `k` of the `N`: the test does not reject too
      often. It is never zero. */
  lemma PValueIsValid(observed: real, nulls: seq<real>, k: nat)
    ensures PValue(observed, nulls) == AtLeast(nulls + [observed], Abs(observed)) as real / |nulls + [observed]| as real
    ensures 0.0 < PValue(observed, nulls) <= 1.0
    ensures LowRanked(nulls + [observed], nulls + [observed], k) <= k
  {
    var all := nulls + [observed];
    assert all[..|nulls|] == nulls;
    FewRankLow(all, k);
    var rank, size := AtLeast(nulls, Abs(observed)) + 1, |nulls| + 1;
    assert 1 <= rank <= size;
    RatioInRange(rank, size);
  }

  lemma RatioInRange(a: nat, b: nat)
    requires 1 <= a <= b
    ensures 0.0 < a as real / b as real <= 1.0
  {
  }
}
