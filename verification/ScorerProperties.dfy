/** Why a scorer trained and scored on the same episodes is exactly calibrated. */
module ScorerProperties {
  import opened Domain
  import opened Ratios
  import opened Sorting
  import opened Scorer

  /** An episode is filed under a cell exactly when the cell is its own. */
  lemma FiledInOwnCell(w: Worked, key: Key)
    requires w.cause.Some? && key.CauseSurfaceBand?
    ensures Files(w, key) <==> CellKey(w) == key
  {
    assert KeysOf(w)[0] == CellKey(w);
  }

  /** Support never falls from a level to a more general one. */
  lemma {:induction false} SupportGrows(seen: seq<Worked>, cause: RootCause, surface: Surface, band: Band, i: nat, j: nat)
    requires i <= j < 4
    ensures Total(seen, Keys(cause, surface, band)[i]) <= Total(seen, Keys(cause, surface, band)[j]) <= |seen|
  {
    if seen != [] {
      var last := seen[|seen| - 1];
      var keys := Keys(cause, surface, band);
      SupportGrows(seen[..|seen| - 1], cause, surface, band, i, j);
      if Files(last, keys[i]) {
        var k :| 0 <= k < 4 && KeysOf(last)[k] == keys[i];
        assert k == i;
        assert KeysOf(last)[j] == keys[j];
      }
    }
  }

  lemma {:induction false} SupportPreventsFailure(seen: seq<Worked>, minSupport: int, keys: seq<Key>)
    requires minSupport > 0
    ensures EstimateFrom(seen, minSupport, keys).Some?
  {
    if keys != [] {
      SupportPreventsFailure(seen, minSupport, keys[1..]);
    }
  }

  /** An estimate fails, by dividing by zero, exactly when no support is asked for and the
      cell is empty. */
  lemma EstimateFailsExactly(seen: seq<Worked>, minSupport: int, w: Worked)
    requires w.cause.Some?
    ensures EstimateOf(seen, minSupport, w).None? <==> minSupport <= 0 && Total(seen, CellKey(w)) == 0
  {
    if minSupport > 0 {
      SupportPreventsFailure(seen, minSupport, KeysOf(w));
    } else {
      assert KeysOf(w)[0] == CellKey(w);
    }
  }

  /* ----- cells ----- */

  function CellTotal(seen: seq<Worked>, key: Key): nat
    requires forall w <- seen :: w.cause.Some?
  {
    if seen == [] then 0
    else CellTotal(seen[..|seen| - 1], key) + (if CellKey(seen[|seen| - 1]) == key then 1 else 0)
  }

  function CellRecoveries(seen: seq<Worked>, key: Key): nat
    requires forall w <- seen :: w.cause.Some?
  {
    if seen == [] then 0
    else
      var last := seen[|seen| - 1];
      CellRecoveries(seen[..|seen| - 1], key) + (if CellKey(last) == key && last.recovered then 1 else 0)
  }

  lemma {:induction false} CellsAreRecounts(seen: seq<Worked>, key: Key)
    requires (forall w <- seen :: w.cause.Some?) && key.CauseSurfaceBand?
    ensures CellTotal(seen, key) == Total(seen, key) && CellRecoveries(seen, key) == Recoveries(seen, key)
  {
    if seen != [] {
      CellsAreRecounts(seen[..|seen| - 1], key);
      FiledInOwnCell(seen[|seen| - 1], key);
    }
  }

  /** What a rate per cell predicts for the chosen cells, all episodes together. */
  function Predicted(seen: seq<Worked>, rate: Key -> real, chosen: Key -> bool): real
    requires forall w <- seen :: w.cause.Some?
  {
    if seen == [] then 0.0
    else
      var key := CellKey(seen[|seen| - 1]);
      Predicted(seen[..|seen| - 1], rate, chosen) + (if chosen(key) then rate(key) else 0.0)
  }

  function Observed(seen: seq<Worked>, chosen: Key -> bool): nat
    requires forall w <- seen :: w.cause.Some?
  {
    if seen == [] then 0
    else
      var last := seen[|seen| - 1];
      Observed(seen[..|seen| - 1], chosen) + (if chosen(CellKey(last)) && last.recovered then 1 else 0)
  }

  /** The episodes outside one cell. */
  function Outside(seen: seq<Worked>, key: Key): (rest: seq<Worked>)
    requires forall w <- seen :: w.cause.Some?
    ensures forall w <- rest :: w in seen && CellKey(w) != key
    ensures |rest| <= |seen|
  {
    if seen == [] then []
    else
      var last := seen[|seen| - 1];
      Outside(seen[..|seen| - 1], key) + (if CellKey(last) == key then [] else [last])
  }

  /** `x` added up `n` times. */
  function Times(x: real, n: nat): real {
    if n == 0 then 0.0 else Times(x, n - 1) + x
  }

  lemma {:induction false} TimesIsProduct(x: real, n: nat)
    ensures Times(x, n) == x * n as real
  {
    if n > 0 {
      TimesIsProduct(x, n - 1);
      assert n as real == (n - 1) as real + 1.0;
      assert x * ((n - 1) as real + 1.0) == x * (n - 1) as real + x;
    }
  }

  /** What one episode adds to the prediction. */
  function Share(key: Key, rate: Key -> real, chosen: Key -> bool): real {
    if chosen(key) then rate(key) else 0.0
  }

  lemma PredictedAppend(seen: seq<Worked>, w: Worked, rate: Key -> real, chosen: Key -> bool)
    requires (forall x <- seen :: x.cause.Some?) && w.cause.Some?
    ensures Predicted(seen + [w], rate, chosen) == Predicted(seen, rate, chosen) + Share(CellKey(w), rate, chosen)
  {
    assert (seen + [w])[..|seen|] == seen;
  }

  lemma OutsideAppend(seen: seq<Worked>, w: Worked, key: Key)
    requires (forall x <- seen :: x.cause.Some?) && w.cause.Some?
    ensures Outside(seen + [w], key) == Outside(seen, key) + (if CellKey(w) == key then [] else [w])
    ensures CellTotal(seen + [w], key) == CellTotal(seen, key) + (if CellKey(w) == key then 1 else 0)
  {
    assert (seen + [w])[..|seen|] == seen;
  }

  /** A cell taken out takes its own predictions with it, and no others. */
  lemma {:induction false} TakeOutPredictions(seen: seq<Worked>, key: Key, rate: Key -> real, chosen: Key -> bool)
    requires forall w <- seen :: w.cause.Some?
    ensures Predicted(seen, rate, chosen) ==
            Predicted(Outside(seen, key), rate, chosen) + Times(Share(key, rate, chosen), CellTotal(seen, key))
  {
    if seen != [] {
      var before, last := seen[..|seen| - 1], seen[|seen| - 1];
      assert seen == before + [last];
      TakeOutPredictions(before, key, rate, chosen);
      PredictedAppend(before, last, rate, chosen);
      OutsideAppend(before, last, key);
      if CellKey(last) == key {
        assert Outside(seen, key) == Outside(before, key);
      } else {
        PredictedAppend(Outside(before, key), last, rate, chosen);
      }
    }
  }

  lemma {:induction false} TimesZero(n: nat)
    ensures Times(0.0, n) == 0.0
  {
    if n > 0 {
      TimesZero(n - 1);
    }
  }

  lemma {:induction false} TakeOutRecoveries(seen: seq<Worked>, key: Key, chosen: Key -> bool)
    requires forall w <- seen :: w.cause.Some?
    ensures Observed(seen, chosen) ==
            Observed(Outside(seen, key), chosen) + (if chosen(key) then CellRecoveries(seen, key) else 0)
  {
    if seen != [] {
      var n := |seen| - 1;
      var last := seen[n];
      TakeOutRecoveries(seen[..n], key, chosen);
      var rest := Outside(seen[..n], key);
      if CellKey(last) != key {
        assert (rest + [last])[..|rest|] == rest;
      } else {
        assert rest + [] == rest;
      }
    }
  }

  lemma CellsAppend(seen: seq<Worked>, w: Worked, key: Key)
    requires (forall x <- seen :: x.cause.Some?) && w.cause.Some?
    ensures CellTotal(seen + [w], key) == CellTotal(seen, key) + (if CellKey(w) == key then 1 else 0)
    ensures CellRecoveries(seen + [w], key) == CellRecoveries(seen, key) + (if CellKey(w) == key && w.recovered then 1 else 0)
  {
    assert (seen + [w])[..|seen|] == seen;
  }

  lemma {:induction false} OtherCellsStay(seen: seq<Worked>, key: Key, other: Key)
    requires (forall w <- seen :: w.cause.Some?) && other != key
    ensures CellTotal(Outside(seen, key), other) == CellTotal(seen, other)
    ensures CellRecoveries(Outside(seen, key), other) == CellRecoveries(seen, other)
  {
    if seen != [] {
      var before, last := seen[..|seen| - 1], seen[|seen| - 1];
      assert seen == before + [last];
      OtherCellsStay(before, key, other);
      OutsideAppend(before, last, key);
      CellsAppend(before, last, other);
      if CellKey(last) == key {
        assert Outside(seen, key) == Outside(before, key);
      } else {
        CellsAppend(Outside(before, key), last, other);
      }
    }
  }

  lemma {:induction false} LastCellIsNotEmpty(seen: seq<Worked>, w: Worked)
    requires (forall x <- seen :: x.cause.Some?) && w in seen
    ensures CellTotal(seen, CellKey(w)) > 0
  {
    var n := |seen| - 1;
    if seen[n] != w {
      assert w in seen[..n];
      LastCellIsNotEmpty(seen[..n], w);
    }
  }

  /** The rate, once for each episode of the cell, makes up its recoveries. */
  ghost predicate Balanced(seen: seq<Worked>, rate: Key -> real, key: Key)
    requires forall w <- seen :: w.cause.Some?
  {
    Times(rate(key), CellTotal(seen, key)) == CellRecoveries(seen, key) as real
  }

  /** When every cell is balanced, predictions and recoveries agree over any choice of whole
      cells. */
  lemma {:induction false} CellByCell(seen: seq<Worked>, rate: Key -> real, chosen: Key -> bool)
    requires forall w <- seen :: w.cause.Some?
    requires forall w <- seen :: Balanced(seen, rate, CellKey(w))
    ensures Predicted(seen, rate, chosen) == Observed(seen, chosen) as real
    decreases |seen|
  {
    if seen != [] {
      var key := CellKey(seen[|seen| - 1]);
      var rest := Outside(seen, key);
      TakeOutPredictions(seen, key, rate, chosen);
      TakeOutRecoveries(seen, key, chosen);
      forall w <- rest ensures Balanced(rest, rate, CellKey(w)) {
        OtherCellsStay(seen, key, CellKey(w));
        assert Balanced(seen, rate, CellKey(w));
      }
      SmallerOutside(seen, key);
      CellByCell(rest, rate, chosen);
      assert Balanced(seen, rate, key);
      TimesZero(CellTotal(seen, key));
    }
  }

  lemma SmallerOutside(seen: seq<Worked>, key: Key)
    requires (forall w <- seen :: w.cause.Some?) && seen != [] && CellKey(seen[|seen| - 1]) == key
    ensures |Outside(seen, key)| < |seen|
  {
  }

  /* ----- scoring what was trained on ----- */

  function ScoredBy(train: seq<Worked>, minSupport: int): Predictor {
    (w: Worked) =>
      if w.cause.None? then None
      else
        match EstimateOf(train, minSupport, w)
        case None => None
        case Some(e) => Some(e.probability)
  }

  /** The rate of a cell in the training set. */
  function CellRate(train: seq<Worked>): Key -> real {
    (key: Key) => if Total(train, key) > 0 then Ratio(Recoveries(train, key), Total(train, key)) else 0.0
  }

  /** Every cell that occurs has the support asked for. */
  ghost predicate WellSupported(results: seq<Worked>, minSupport: int) {
    forall w <- WithCause(results) :: Total(WithCause(results), CellKey(w)) >= minSupport
  }

  lemma SelfEstimate(results: seq<Worked>, minSupport: int, w: Worked)
    requires WellSupported(results, minSupport) && w in WithCause(results)
    ensures ScoredBy(WithCause(results), minSupport)(w) == Some(CellRate(WithCause(results))(CellKey(w)))
  {
    var train := WithCause(results);
    LastCellIsNotEmpty(train, w);
    CellsAreRecounts(train, CellKey(w));
    assert KeysOf(w)[0] == CellKey(w);
  }

  function Chosen(rate: Key -> real, bins: int, i: int): Key -> bool {
    (key: Key) => BinOf(rate(key), bins) == i
  }

  /** A bucket adds up the predictions and recoveries of the cells that fall in its bin. */
  lemma {:induction false} BucketAddsCells(results: seq<Worked>, predict: Predictor, rate: Key -> real, bins: int, i: int)
    requires forall w <- WithCause(results) :: predict(w) == Some(rate(CellKey(w)))
    ensures var b := BucketOf(results, predict, bins, i);
            && b.predicted == Predicted(WithCause(results), rate, Chosen(rate, bins, i))
            && b.recovered == Observed(WithCause(results), Chosen(rate, bins, i))
  {
    if results != [] {
      var n := |results| - 1;
      var kept := WithCause(results[..n]);
      forall w <- kept ensures predict(w) == Some(rate(CellKey(w))) {
        assert w in WithCause(results);
      }
      BucketAddsCells(results[..n], predict, rate, bins, i);
      if results[n].cause.Some? {
        assert WithCause(results) == kept + [results[n]];
        assert WithCause(results)[|kept|] == results[n];
        assert results[n] in WithCause(results);
        assert (kept + [results[n]])[..|kept|] == kept;
      } else {
        assert kept + [] == kept;
      }
    }
  }

  lemma TrainingIsBalanced(train: seq<Worked>, w: Worked)
    requires (forall x <- train :: x.cause.Some?) && w in train
    ensures Balanced(train, CellRate(train), CellKey(w))
  {
    var key := CellKey(w);
    LastCellIsNotEmpty(train, w);
    CellsAreRecounts(train, key);
    TimesRatio(Recoveries(train, key), Total(train, key));
  }

  lemma BucketBalances(results: seq<Worked>, minSupport: int, bins: int, i: int)
    requires WellSupported(results, minSupport)
    ensures var b := BucketOf(results, ScoredBy(WithCause(results), minSupport), bins, i);
            b.predicted == b.recovered as real
  {
    var train := WithCause(results);
    var predict, rate := ScoredBy(train, minSupport), CellRate(train);
    forall w <- train ensures predict(w) == Some(rate(CellKey(w))) && Balanced(train, rate, CellKey(w)) {
      SelfEstimate(results, minSupport, w);
      TrainingIsBalanced(train, w);
    }
    BucketAddsCells(results, predict, rate, bins, i);
    CellByCell(train, rate, Chosen(rate, bins, i));
  }

  lemma TimesRatio(recovered: nat, total: nat)
    requires total > 0
    ensures Times(Ratio(recovered, total), total) == recovered as real
  {
    TimesIsProduct(Ratio(recovered, total), total);
    RatioTimes(recovered, total);
  }

  lemma {:induction false} EveryResultIsPredicted(results: seq<Worked>, i: nat)
    requires i < |results| && results[i].cause.Some?
    ensures results[i] in WithCause(results)
  {
    if i < |results| - 1 {
      EveryResultIsPredicted(results[..|results| - 1], i);
    }
  }

  lemma {:induction false} RowsBalance(results: seq<Worked>, minSupport: int, bins: int, indexes: seq<int>)
    requires WellSupported(results, minSupport)
    ensures var rows := RowsOf(results, ScoredBy(WithCause(results), minSupport), bins, indexes);
            forall r <- rows :: r.predicted == r.observed
  {
    if indexes != [] {
      RowsBalance(results, minSupport, bins, indexes[..|indexes| - 1]);
      BucketBalances(results, minSupport, bins, indexes[|indexes| - 1]);
    }
  }

  lemma {:induction false} NoGaps(rows: seq<Row>)
    requires forall r <- rows :: r.predicted == r.observed
    ensures Gaps(rows) == 0.0
  {
    if rows != [] {
      NoGaps(rows[..|rows| - 1]);
      assert rows[|rows| - 1] in rows;
    }
  }

  lemma NoError(rows: seq<Row>)
    requires forall r <- rows :: r.predicted == r.observed
    ensures CalibrationError(rows) == 0.0
  {
    NoGaps(rows);
  }

  lemma NothingFailsToPredict(results: seq<Worked>, minSupport: int)
    requires WellSupported(results, minSupport)
    ensures AllPredicted(results, ScoredBy(WithCause(results), minSupport))
  {
    forall i | 0 <= i < |results| && results[i].cause.Some?
      ensures ScoredBy(WithCause(results), minSupport)(results[i]).Some?
    {
      EveryResultIsPredicted(results, i);
      SelfEstimate(results, minSupport, results[i]);
    }
  }

  /** Trained and scored on the same episodes, with every occurring cell supported: for any
      number of bins every row predicts what it observed, and the error is exactly zero. */
  lemma CalibratedByConstruction(results: seq<Worked>, minSupport: int, bins: int)
    requires WellSupported(results, minSupport)
    ensures var rows := Reliability(results, ScoredBy(WithCause(results), minSupport), bins);
            && rows.Some?
            && (forall r <- rows.value :: r.predicted == r.observed)
            && CalibrationError(rows.value) == 0.0
  {
    var predict := ScoredBy(WithCause(results), minSupport);
    NothingFailsToPredict(results, minSupport);
    var indexes := Sort(BinsUsed(results, predict, bins), Below);
    RowsBalance(results, minSupport, bins, indexes);
    NoError(RowsOf(results, predict, bins, indexes));
  }
}
