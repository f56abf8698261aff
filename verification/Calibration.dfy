/** What the scorer's estimate, its table of bins and its error say, in plain counts. */
module Calibration {
  import opened Domain
  import opened Ratios
  import opened Sorting
  import opened Counting
  import opened Scorer

  /* ----- bands ----- */

  /** The bands part the amounts at these many rupees. */
  const THRESHOLDS: set<int> := {500, 2_000, 10_000, 50_000}

  function Rank(band: Band): nat {
    match band
    case Below500 => 0
    case To2k => 1
    case To10k => 2
    case To50k => 3
    case Above => 4
  }

  /** Two episodes share a cell exactly when they share cause and surface and no threshold
      parts their amounts; a larger amount is never in a lower band. */
  lemma CellsAgreeExactly(w: Worked, v: Worked)
    requires w.cause.Some? && v.cause.Some?
    ensures CellKey(w) == CellKey(v) <==>
            && w.cause == v.cause && w.surface == v.surface
            && forall rupees <- THRESHOLDS :: 100 * rupees <= w.amount <==> 100 * rupees <= v.amount
    ensures w.amount <= v.amount ==> Rank(AmountBand(w.amount)) <= Rank(AmountBand(v.amount))
  {
    assert THRESHOLDS == {500, 2_000, 10_000, 50_000};
    assert 500 in THRESHOLDS && 2_000 in THRESHOLDS && 10_000 in THRESHOLDS && 50_000 in THRESHOLDS;
  }

  /* ----- cells count episodes ----- */

  function Under(key: Key): Worked -> bool {
    w => Files(w, key)
  }

  function RecoveredUnder(key: Key): Worked -> bool {
    w => Files(w, key) && w.recovered
  }

  /** The number of episodes filed under a key. */
  ghost function Filed(seen: seq<Worked>, key: Key): nat {
    |Places(seen, Under(key))|
  }

  ghost function FiledRecovered(seen: seq<Worked>, key: Key): nat {
    |Places(seen, RecoveredUnder(key))|
  }

  /** A cell holds as many episodes, and as many recoveries, as are filed under it. */
  lemma {:induction false} CellsCountEpisodes(seen: seq<Worked>, key: Key)
    ensures Total(seen, key) == Filed(seen, key)
    ensures Recoveries(seen, key) == FiledRecovered(seen, key)
  {
    if seen != [] {
      CellsCountEpisodes(seen[..|seen| - 1], key);
      PlacesGrow(seen, Under(key));
      PlacesGrow(seen, RecoveredUnder(key));
    }
  }

  /* ----- the estimate ----- */

  /** An estimate is the share of a cell that recovered. */
  ghost predicate IsShare(seen: seq<Worked>, key: Key, e: Estimate) {
    && e.level == key
    && e.support == Filed(seen, key) > 0
    && IsQuotient(e.probability, FiledRecovered(seen, key) as real, e.support)
  }

  ghost predicate Short(seen: seq<Worked>, key: Key, minSupport: int) {
    Filed(seen, key) < minSupport
  }

  /** A level is the first with the support asked for. */
  ghost predicate FirstSupported(seen: seq<Worked>, minSupport: int, keys: seq<Key>, i: nat)
    requires i < |keys|
  {
    !Short(seen, keys[i], minSupport) && forall j | 0 <= j < i :: Short(seen, keys[j], minSupport)
  }

  /** A level answers exactly when it is the first with the support asked for. When none
      has it everything seen answers, and with nothing seen the estimate is one half. */
  lemma EstimateExactly(seen: seq<Worked>, minSupport: int, w: Worked, e: Estimate)
    requires w.cause.Some?
    ensures var keys := KeysOf(w);
            EstimateOf(seen, minSupport, w) == Some(e) <==>
            || (exists i | 0 <= i < 4 :: FirstSupported(seen, minSupport, keys, i) && IsShare(seen, keys[i], e))
            || (&& (forall i | 0 <= i < 4 :: Short(seen, keys[i], minSupport))
                && (IsShare(seen, Everything, e) || (Filed(seen, Everything) == 0 && e == Estimate(0.5, 0, Everything))))
  {
    var keys := KeysOf(w);
    assert keys[0..] == keys;
    EstimateFromLevel(seen, minSupport, keys, 0, e);
  }

  lemma {:induction false} EstimateFromLevel(seen: seq<Worked>, minSupport: int, keys: seq<Key>, i: nat, e: Estimate)
    requires i <= |keys| && forall j | 0 <= j < i :: Short(seen, keys[j], minSupport)
    ensures EstimateFrom(seen, minSupport, keys[i..]) == Some(e) <==>
            || (exists k | i <= k < |keys| :: FirstSupported(seen, minSupport, keys, k) && IsShare(seen, keys[k], e))
            || (&& (forall k | 0 <= k < |keys| :: Short(seen, keys[k], minSupport))
                && (IsShare(seen, Everything, e) || (Filed(seen, Everything) == 0 && e == Estimate(0.5, 0, Everything))))
    decreases |keys| - i
  {
    var key := if i < |keys| then keys[i] else Everything;
    CellsCountEpisodes(seen, key);
    ShareIsRatio(seen, key, e);
    if i < |keys| && Short(seen, key, minSupport) {
      assert keys[i..][1..] == keys[i + 1..];
      EstimateFromLevel(seen, minSupport, keys, i + 1, e);
      assert !FirstSupported(seen, minSupport, keys, i);
    } else if i < |keys| {
      assert FirstSupported(seen, minSupport, keys, i);
      assert forall k | i < k < |keys| :: !FirstSupported(seen, minSupport, keys, k);
    }
  }

  lemma ShareIsRatio(seen: seq<Worked>, key: Key, e: Estimate)
    ensures IsShare(seen, key, e) <==>
            Total(seen, key) > 0 && e == Estimate(Ratio(Recoveries(seen, key), Total(seen, key)), Total(seen, key), key)
  {
    CellsCountEpisodes(seen, key);
    if Total(seen, key) > 0 {
      QuotientExactly(e.probability, Recoveries(seen, key) as real, Total(seen, key));
    }
  }

  /* ----- bins ----- */

  /** A bin holds the predictions from its lower edge up to the next; certainty goes in the
      last, and nothing falls outside. */
  lemma BinExactly(p: real, bins: int, i: int)
    requires 0.0 <= p <= 1.0 && bins > 0
    ensures 0 <= BinOf(p, bins) < bins
    ensures BinOf(p, bins) == i <==>
            0 <= i < bins && i as real <= p * bins as real && (p * bins as real < (i + 1) as real || (p == 1.0 && i == bins - 1))
  {
    var x := p * bins as real;
    AtMost(p, bins);
    assert x.Floor as real <= x < x.Floor as real + 1.0;
  }

  lemma AtMost(p: real, bins: int)
    requires 0.0 <= p <= 1.0 && bins > 0
    ensures 0.0 <= p * bins as real <= bins as real
    ensures p * bins as real == bins as real <==> p == 1.0
  {
    assert (1.0 - p) * bins as real == bins as real - p * bins as real;
  }

  /** Below zero the bin is taken toward zero too. */
  lemma TruncationIsTowardZero(x: real)
    ensures Abs(Truncated(x) as real) <= Abs(x) < Abs(Truncated(x) as real) + 1.0
    ensures Truncated(x) > 0 ==> x > 0.0
    ensures Truncated(x) < 0 ==> x < 0.0
  {
  }

  /** The bin a result falls in, if it has a cause and a prediction. */
  function BinFor(w: Worked, predict: Predictor, bins: int): Option<int> {
    if w.cause.None? || predict(w).None? then None else Some(BinOf(predict(w).value, bins))
  }

  function Falls(predict: Predictor, bins: int, i: int): Worked -> bool {
    w => BinFor(w, predict, bins) == Some(i)
  }

  function FallsRecovered(predict: Predictor, bins: int, i: int): Worked -> bool {
    w => BinFor(w, predict, bins) == Some(i) && w.recovered
  }

  /** The number of results in a bin. */
  ghost function InBin(results: seq<Worked>, predict: Predictor, bins: int, i: int): nat {
    |Places(results, Falls(predict, bins, i))|
  }

  ghost function InBinRecovered(results: seq<Worked>, predict: Predictor, bins: int, i: int): nat {
    |Places(results, FallsRecovered(predict, bins, i))|
  }

  /** A bucket counts the results in its bin and the recovered among them. */
  lemma {:induction false} BucketsCountResults(results: seq<Worked>, predict: Predictor, bins: int, i: int)
    ensures BucketOf(results, predict, bins, i).count == InBin(results, predict, bins, i)
    ensures BucketOf(results, predict, bins, i).recovered == InBinRecovered(results, predict, bins, i)
  {
    if results != [] {
      BucketsCountResults(results[..|results| - 1], predict, bins, i);
      PlacesGrow(results, Falls(predict, bins, i));
      PlacesGrow(results, FallsRecovered(predict, bins, i));
    }
  }

  /** No list entry occurs twice. */
  ghost predicate Once(xs: seq<int>) {
    forall a, b | 0 <= a < b < |xs| :: xs[a] != xs[b]
  }

  /** The bins used are those some result falls in, each once. */
  lemma {:induction false} BinsUsedExactly(results: seq<Worked>, predict: Predictor, bins: int)
    ensures forall i :: i in BinsUsed(results, predict, bins) <==> InBin(results, predict, bins, i) > 0
    ensures Once(BinsUsed(results, predict, bins))
  {
    if results != [] {
      BinsUsedExactly(results[..|results| - 1], predict, bins);
      forall i ensures i in BinsUsed(results, predict, bins) <==> InBin(results, predict, bins, i) > 0 {
        PlacesGrow(results, Falls(predict, bins, i));
      }
    }
  }

  /** The bins used, lowest first. */
  function InOrder(results: seq<Worked>, predict: Predictor, bins: int): seq<int> {
    Sort(BinsUsed(results, predict, bins), Below)
  }

  lemma InOrderExactly(results: seq<Worked>, predict: Predictor, bins: int)
    ensures var order := InOrder(results, predict, bins);
            && (forall i :: i in order <==> InBin(results, predict, bins, i) > 0)
            && (forall a, b | 0 <= a < b < |order| :: order[a] < order[b])
  {
    var used, order := BinsUsed(results, predict, bins), InOrder(results, predict, bins);
    BinsUsedExactly(results, predict, bins);
    SortPermutes(used, Below);
    SortAscends(used, Below);
    forall i ensures i in order <==> i in used {
      assert i in multiset(order) <==> i in multiset(used);
    }
    DistinctForgetsOrder(used, order);
    forall a, b | 0 <= a < b < |order| ensures order[a] < order[b] {
      assert !Below(order[b], order[a]);
    }
  }

  /** What the predictions in a bin add up to. */
  function PredictedIn(results: seq<Worked>, predict: Predictor, bins: int, i: int): real {
    if results == [] then 0.0
    else
      var last := results[|results| - 1];
      PredictedIn(results[..|results| - 1], predict, bins, i) + PredictionIn(last, predict, bins, i)
  }

  function PredictionIn(w: Worked, predict: Predictor, bins: int, i: int): real {
    if BinFor(w, predict, bins) == Some(i) then predict(w).value else 0.0
  }

  lemma {:induction false} BucketsAddPredictions(results: seq<Worked>, predict: Predictor, bins: int, i: int)
    ensures BucketOf(results, predict, bins, i).predicted == PredictedIn(results, predict, bins, i)
  {
    if results != [] {
      BucketsAddPredictions(results[..|results| - 1], predict, bins, i);
    }
  }

  /** A row tells how many results its bin holds, the share of them that recovered and the
      mean of their predictions. */
  ghost predicate RowIs(row: Row, results: seq<Worked>, predict: Predictor, bins: int, i: int) {
    Says(row, InBin(results, predict, bins, i), InBinRecovered(results, predict, bins, i), PredictedIn(results, predict, bins, i))
  }

  ghost predicate Says(row: Row, count: nat, recovered: nat, predicted: real) {
    && row.count == count > 0
    && IsQuotient(row.observed, recovered as real, count)
    && IsQuotient(row.predicted, predicted, count)
  }

  lemma RowIsOfItsBin(results: seq<Worked>, predict: Predictor, bins: int, i: int)
    requires InBin(results, predict, bins, i) > 0
    ensures var b := BucketOf(results, predict, bins, i);
            b.count > 0 && RowIs(RowOf(b), results, predict, bins, i)
  {
    BucketsCountResults(results, predict, bins, i);
    BucketsAddPredictions(results, predict, bins, i);
    RowOfMeans(BucketOf(results, predict, bins, i));
  }

  lemma RowOfMeans(b: Bucket)
    requires b.count > 0
    ensures Says(RowOf(b), b.count, b.recovered, b.predicted)
  {
    QuotientExactly(RowOf(b).observed, b.recovered as real, b.count);
    QuotientExactly(RowOf(b).predicted, b.predicted, b.count);
  }

  lemma {:induction false} OneRowEach(results: seq<Worked>, predict: Predictor, bins: int, indexes: seq<int>)
    requires forall i <- indexes :: BucketOf(results, predict, bins, i).count > 0
    ensures |RowsOf(results, predict, bins, indexes)| == |indexes|
    ensures forall k | 0 <= k < |indexes| ::
              RowsOf(results, predict, bins, indexes)[k] == RowOf(BucketOf(results, predict, bins, indexes[k]))
  {
    if indexes != [] {
      var n := |indexes| - 1;
      OneRowEach(results, predict, bins, indexes[..n]);
      assert indexes[n] in indexes;
    }
  }

  lemma RowsAreOfTheirBins(results: seq<Worked>, predict: Predictor, bins: int, indexes: seq<int>)
    requires forall i <- indexes :: InBin(results, predict, bins, i) > 0
    ensures |RowsOf(results, predict, bins, indexes)| == |indexes|
    ensures forall k | 0 <= k < |indexes| ::
              RowIs(RowsOf(results, predict, bins, indexes)[k], results, predict, bins, indexes[k])
  {
    forall i <- indexes ensures BucketOf(results, predict, bins, i).count > 0 {
      RowIsOfItsBin(results, predict, bins, i);
    }
    OneRowEach(results, predict, bins, indexes);
    forall k | 0 <= k < |indexes|
      ensures RowIs(RowsOf(results, predict, bins, indexes)[k], results, predict, bins, indexes[k])
    {
      assert indexes[k] in indexes;
      RowIsOfItsBin(results, predict, bins, indexes[k]);
    }
  }

  /** Unless a result with a cause cannot be predicted, there is one row for each bin some
      result falls in, lowest bin first. */
  lemma ReliabilityExactly(results: seq<Worked>, predict: Predictor, bins: int)
    ensures Reliability(results, predict, bins).Some? <==>
            forall w <- results :: w.cause.Some? ==> predict(w).Some?
    ensures Reliability(results, predict, bins).Some? ==>
              var rows, order := Reliability(results, predict, bins).value, InOrder(results, predict, bins);
              && |rows| == |order|
              && (forall a, b | 0 <= a < b < |order| :: order[a] < order[b])
              && (forall i :: i in order <==> InBin(results, predict, bins, i) > 0)
              && (forall k | 0 <= k < |rows| :: RowIs(rows[k], results, predict, bins, order[k]))
  {
    InOrderExactly(results, predict, bins);
    RowsAreOfTheirBins(results, predict, bins, InOrder(results, predict, bins));
    if !AllPredicted(results, predict) {
      var k :| 0 <= k < |results| && !(results[k].cause.Some? ==> predict(results[k]).Some?);
      assert results[k] in results;
    }
  }

  /* ----- nothing is lost ----- */

  function AddUp(counts: int -> nat, order: seq<int>): nat {
    if order == [] then 0 else AddUp(counts, order[..|order| - 1]) + counts(order[|order| - 1])
  }

  ghost function BinCounts(results: seq<Worked>, predict: Predictor, bins: int): int -> nat {
    i => InBin(results, predict, bins, i)
  }

  lemma {:induction false} OneMore(before: int -> nat, after: int -> nat, here: Option<int>, order: seq<int>)
    requires Once(order)
    requires forall i :: after(i) == before(i) + if here == Some(i) then 1 else 0
    ensures AddUp(after, order) == AddUp(before, order) + if here.Some? && here.value in order then 1 else 0
  {
    if order != [] {
      OneMore(before, after, here, order[..|order| - 1]);
    }
  }

  function Known(): Worked -> bool {
    (w: Worked) => w.cause.Some?
  }

  lemma {:induction false} BinsHoldEveryone(results: seq<Worked>, predict: Predictor, bins: int, order: seq<int>)
    requires Once(order) && AllPredicted(results, predict)
    requires forall w <- results :: BinFor(w, predict, bins).Some? ==> BinFor(w, predict, bins).value in order
    ensures AddUp(BinCounts(results, predict, bins), order) == |Places(results, Known())|
  {
    if results == [] {
      NothingHeld(predict, bins, order);
    } else {
      var n := |results| - 1;
      var before, after := BinCounts(results[..n], predict, bins), BinCounts(results, predict, bins);
      BinsHoldEveryone(results[..n], predict, bins, order);
      PlacesGrow(results, Known());
      assert results[n] in results;
      forall i ensures after(i) == before(i) + if BinFor(results[n], predict, bins) == Some(i) then 1 else 0 {
        PlacesGrow(results, Falls(predict, bins, i));
      }
      OneMore(before, after, BinFor(results[n], predict, bins), order);
    }
  }

  lemma {:induction false} NothingHeld(predict: Predictor, bins: int, order: seq<int>)
    ensures AddUp(BinCounts([], predict, bins), order) == 0
  {
    if order != [] {
      NothingHeld(predict, bins, order[..|order| - 1]);
    }
  }

  lemma {:induction false} CountedAddsUp(rows: seq<Row>, counts: int -> nat, order: seq<int>)
    requires |rows| == |order| && forall k | 0 <= k < |rows| :: rows[k].count == counts(order[k])
    ensures Counted(rows) == AddUp(counts, order)
  {
    if rows != [] {
      CountedAddsUp(rows[..|rows| - 1], counts, order[..|order| - 1]);
    }
  }

  /** Every result with a cause is in exactly one row: the rows' counts add up to their number. */
  lemma EveryResultIsCounted(results: seq<Worked>, predict: Predictor, bins: int)
    requires Reliability(results, predict, bins).Some?
    ensures Counted(Reliability(results, predict, bins).value) == |Places(results, Known())|
  {
    var order := InOrder(results, predict, bins);
    ReliabilityExactly(results, predict, bins);
    forall w <- results | BinFor(w, predict, bins).Some? ensures BinFor(w, predict, bins).value in order {
      NoPlaces(results, Falls(predict, bins, BinFor(w, predict, bins).value));
    }
    BinsHoldEveryone(results, predict, bins, order);
    CountedAddsUp(Reliability(results, predict, bins).value, BinCounts(results, predict, bins), order);
  }

  /* ----- the error ----- */

  lemma {:induction false} GapsSplit(xs: seq<Row>, ys: seq<Row>)
    ensures Gaps(xs + ys) == Gaps(xs) + Gaps(ys) && Counted(xs + ys) == Counted(xs) + Counted(ys)
  {
    if ys == [] {
      assert xs + ys == xs;
    } else {
      assert (xs + ys)[..|xs + ys| - 1] == xs + ys[..|ys| - 1];
      GapsSplit(xs, ys[..|ys| - 1]);
    }
  }

  /** A table's error, once for each of its episodes. */
  function Weighted(rows: seq<Row>): real {
    CalibrationError(rows) * Counted(rows) as real
  }

  /** The error of two tables together is the mean of theirs, weighted by their episodes. */
  lemma ErrorIsWeightedMean(xs: seq<Row>, ys: seq<Row>)
    ensures Weighted(xs + ys) == Weighted(xs) + Weighted(ys)
    ensures Counted(xs + ys) == Counted(xs) + Counted(ys)
  {
    GapsSplit(xs, ys);
    WeightedIsGaps(xs);
    WeightedIsGaps(ys);
    WeightedIsGaps(xs + ys);
  }

  lemma WeightedIsGaps(rows: seq<Row>)
    ensures Weighted(rows) == Gaps(rows)
  {
    if Counted(rows) > 0 {
      QuotientExactly(CalibrationError(rows), Gaps(rows), Counted(rows));
    } else {
      GapsVanishExactly(rows);
    }
  }

  /** The error of one row is how far its prediction is from what was observed, whichever is
      the larger. */
  lemma ErrorOfOneRow(r: Row)
    requires r.count > 0
    ensures CalibrationError([r]) == if r.predicted < r.observed then r.observed - r.predicted else r.predicted - r.observed
  {
    var gap := Abs(r.predicted - r.observed);
    assert [r][..0] == [];
    assert Counted([r]) == Counted([]) + r.count && Gaps([r]) == Gaps([]) + gap * r.count as real;
    assert IsQuotient(gap, gap * r.count as real, r.count);
    QuotientExactly(gap, gap * r.count as real, r.count);
  }

  lemma {:induction false} GapsVanishExactly(rows: seq<Row>)
    ensures Gaps(rows) >= 0.0
    ensures Gaps(rows) == 0.0 <==> forall r <- rows :: r.count > 0 ==> r.predicted == r.observed
    ensures Counted(rows) == 0 ==> Gaps(rows) == 0.0
  {
    if rows != [] {
      var n := |rows| - 1;
      GapsVanishExactly(rows[..n]);
      GapVanishes(Abs(rows[n].predicted - rows[n].observed), rows[n].count);
      assert rows == rows[..n] + [rows[n]];
    }
  }

  lemma GapVanishes(gap: real, count: nat)
    requires gap >= 0.0
    ensures gap * count as real >= 0.0
    ensures gap * count as real == 0.0 <==> gap == 0.0 || count == 0
  {
  }

  /** The error vanishes exactly when every row with an episode observed what it predicted:
      gaps never cancel. */
  lemma ErrorVanishesExactly(rows: seq<Row>)
    ensures CalibrationError(rows) >= 0.0
    ensures CalibrationError(rows) == 0.0 <==> forall r <- rows :: r.count > 0 ==> r.predicted == r.observed
  {
    GapsVanishExactly(rows);
    if Counted(rows) > 0 {
      WeightedIsGaps(rows);
      GapVanishes(Abs(CalibrationError(rows)), Counted(rows));
    }
  }
}
