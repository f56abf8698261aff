/** Recoverability: rates counted from worked episodes, and a check of their calibration. */
module Scorer {
  import opened Domain
  import opened Ratios
  import opened Sorting

  datatype Band = Below500 | To2k | To10k | To50k | Above

  function AmountBand(amount: Paise): Band {
    if amount < 50_000 then Below500
    else if amount < 200_000 then To2k
    else if amount < 1_000_000 then To10k
    else if amount < 5_000_000 then To50k
    else Above
  }

  /** A worked episode; its true cause may be unknown, and then it is skipped. */
  datatype Worked = Worked(cause: Option<RootCause>, surface: Surface, amount: Paise, recovered: bool)

  datatype Key =
    | CauseSurfaceBand(cause: RootCause, surface: Surface, band: Band)
    | CauseSurface(cause: RootCause, surface: Surface)
    | CauseOnly(cause: RootCause)
    | Everything

  /** Most specific first. */
  function Keys(cause: RootCause, surface: Surface, band: Band): (keys: seq<Key>)
    ensures |keys| == 4
  {
    [CauseSurfaceBand(cause, surface, band), CauseSurface(cause, surface), CauseOnly(cause), Everything]
  }

  function KeysOf(w: Worked): (keys: seq<Key>)
    requires w.cause.Some?
    ensures |keys| == 4
  {
    Keys(w.cause.value, w.surface, AmountBand(w.amount))
  }

  /** The cell an episode falls in. */
  function CellKey(w: Worked): Key
    requires w.cause.Some?
  {
    CauseSurfaceBand(w.cause.value, w.surface, AmountBand(w.amount))
  }

  /* ----- recounts ----- */

  predicate Files(w: Worked, key: Key) {
    w.cause.Some? && key in KeysOf(w)
  }

  function Total(seen: seq<Worked>, key: Key): nat {
    if seen == [] then 0
    else Total(seen[..|seen| - 1], key) + (if Files(seen[|seen| - 1], key) then 1 else 0)
  }

  function Recoveries(seen: seq<Worked>, key: Key): nat {
    if seen == [] then 0
    else
      var last := seen[|seen| - 1];
      Recoveries(seen[..|seen| - 1], key) + (if Files(last, key) && last.recovered then 1 else 0)
  }

  /* ----- estimates, stated over what was seen ----- */

  datatype Estimate = Estimate(probability: real, support: nat, level: Key)

  /** Backoff; None where the source divides by zero. */
  function EstimateFrom(seen: seq<Worked>, minSupport: int, keys: seq<Key>): Option<Estimate> {
    if keys == [] then
      var total := Total(seen, Everything);
      Some(Estimate(if total > 0 then Ratio(Recoveries(seen, Everything), total) else 0.5, total, Everything))
    else
      var total := Total(seen, keys[0]);
      if total < minSupport then EstimateFrom(seen, minSupport, keys[1..])
      else if total == 0 then None
      else Some(Estimate(Ratio(Recoveries(seen, keys[0]), total), total, keys[0]))
  }

  function EstimateOf(seen: seq<Worked>, minSupport: int, w: Worked): Option<Estimate>
    requires w.cause.Some?
  {
    EstimateFrom(seen, minSupport, KeysOf(w))
  }

  /* ----- calibration ----- */

  /** Toward zero. */
  function Truncated(x: real): int {
    if x >= 0.0 then x.Floor else -((-x).Floor)
  }

  function BinOf(p: real, bins: int): int {
    var i := Truncated(p * bins as real);
    if bins - 1 <= i then bins - 1 else i
  }

  /** One bucket: episodes, recoveries and predictions added up. */
  datatype Bucket = Bucket(count: nat, recovered: nat, predicted: real)

  const EMPTY: Bucket := Bucket(0, 0, 0.0)

  /** A predictor, None where it raises. */
  type Predictor = Worked -> Option<real>

  /** The first episodes' bucket `i`. */
  function BucketOf(results: seq<Worked>, predict: Predictor, bins: int, i: int): Bucket {
    if results == [] then EMPTY
    else
      var last := results[|results| - 1];
      var b := BucketOf(results[..|results| - 1], predict, bins, i);
      match if last.cause.None? then None else predict(last)
      case None => b
      case Some(p) =>
        if BinOf(p, bins) == i then Bucket(b.count + 1, b.recovered + (if last.recovered then 1 else 0), b.predicted + p)
        else b
  }

  /** Bins in the order they are first used. */
  function BinsUsed(results: seq<Worked>, predict: Predictor, bins: int): seq<int> {
    if results == [] then []
    else
      var last := results[|results| - 1];
      var before := BinsUsed(results[..|results| - 1], predict, bins);
      match if last.cause.None? then None else predict(last)
      case None => before
      case Some(p) => if BinOf(p, bins) in before then before else before + [BinOf(p, bins)]
  }

  predicate AllPredicted(results: seq<Worked>, predict: Predictor) {
    forall i | 0 <= i < |results| :: results[i].cause.Some? ==> predict(results[i]).Some?
  }

  /** Mean prediction, observed frequency, episodes. */
  datatype Row = Row(predicted: real, observed: real, count: nat)

  function RowOf(b: Bucket): Row
    requires b.count > 0
  {
    Row(b.predicted / b.count as real, Ratio(b.recovered, b.count), b.count)
  }

  function RowsOf(results: seq<Worked>, predict: Predictor, bins: int, indexes: seq<int>): seq<Row> {
    if indexes == [] then []
    else
      var b := BucketOf(results, predict, bins, indexes[|indexes| - 1]);
      RowsOf(results, predict, bins, indexes[..|indexes| - 1]) + (if b.count > 0 then [RowOf(b)] else [])
  }

  predicate Below(i: int, j: int) {
    i < j
  }

  function Reliability(results: seq<Worked>, predict: Predictor, bins: int): Option<seq<Row>> {
    if AllPredicted(results, predict)
    then Some(RowsOf(results, predict, bins, Sort(BinsUsed(results, predict, bins), Below)))
    else None
  }

  function Counted(rows: seq<Row>): nat {
    if rows == [] then 0 else Counted(rows[..|rows| - 1]) + rows[|rows| - 1].count
  }

  function Gaps(rows: seq<Row>): real {
    if rows == [] then 0.0
    else
      var r := rows[|rows| - 1];
      Gaps(rows[..|rows| - 1]) + Abs(r.predicted - r.observed) * r.count as real
  }

  function CalibrationError(rows: seq<Row>): real {
    if Counted(rows) == 0 then 0.0 else Gaps(rows) / Counted(rows) as real
  }

  /* ----- the scorer as it is kept ----- */

  datatype Cell = Cell(recovered: nat, total: nat)

  ghost predicate Indexed(counts: map<Key, Cell>, seen: seq<Worked>) {
    forall k :: (if k in counts then counts[k] else Cell(0, 0)) == Cell(Recoveries(seen, k), Total(seen, k))
  }

  /** `w` is counted under `done` and not yet under any other key. */
  ghost predicate PartlyCounted(counts: map<Key, Cell>, before: seq<Worked>, w: Worked, done: seq<Key>) {
    forall k :: (if k in counts then counts[k] else Cell(0, 0)) ==
      if k in done then Cell(Recoveries(before, k) + (if w.recovered then 1 else 0), Total(before, k) + 1)
      else Cell(Recoveries(before, k), Total(before, k))
  }

  class RecoverabilityScorer {
    const minSupport: int
    var counts: map<Key, Cell>
    ghost var seen: seq<Worked>

    /** Every cell equals a recount of what was observed. */
    ghost predicate Valid()
      reads this
    {
      Indexed(counts, seen)
    }

    constructor (minSupport: int)
      ensures Valid() && seen == [] && this.minSupport == minSupport
    {
      this.minSupport := minSupport;
      counts, seen := map[], [];
    }

    method Observe(w: Worked)
      requires Valid() && w.cause.Some?
      modifies this
      ensures Valid() && seen == old(seen) + [w]
    {
      var keys := KeysOf(w);
      for i := 0 to |keys|
        invariant PartlyCounted(counts, seen, w, keys[..i]) && seen == old(seen)
      {
        var key := keys[i];
        assert key !in keys[..i];
        assert keys[..i + 1] == keys[..i] + [key];
        var cell := if key in counts then counts[key] else Cell(0, 0);
        counts := counts[key := Cell(cell.recovered + (if w.recovered then 1 else 0), cell.total + 1)];
      }
      assert keys[..|keys|] == keys;
      assert (seen + [w])[..|seen|] == seen;
      seen := seen + [w];
    }

    method FromResults(results: seq<Worked>)
      requires Valid() && seen == []
      modifies this
      ensures Valid() && seen == WithCause(results)
    {
      for i := 0 to |results|
        invariant Valid() && seen == WithCause(results[..i])
      {
        assert results[..i + 1][..i] == results[..i];
        if results[i].cause.Some? {
          Observe(results[i]);
        }
      }
      assert results[..|results|] == results;
    }

    method Estimated(w: Worked) returns (e: Option<Estimate>)
      requires Valid() && w.cause.Some?
      ensures e == EstimateOf(seen, minSupport, w)
    {
      var keys := KeysOf(w);
      for i := 0 to |keys|
        invariant EstimateOf(seen, minSupport, w) == EstimateFrom(seen, minSupport, keys[i..])
      {
        var cell := if keys[i] in counts then counts[keys[i]] else Cell(0, 0);
        assert cell == Cell(Recoveries(seen, keys[i]), Total(seen, keys[i]));
        if cell.total >= minSupport {
          if cell.total == 0 {
            return None;
          }
          return Some(Estimate(Ratio(cell.recovered, cell.total), cell.total, keys[i]));
        }
      }
      var all := if Everything in counts then counts[Everything] else Cell(0, 0);
      assert all == Cell(Recoveries(seen, Everything), Total(seen, Everything));
      return Some(Estimate(if all.total > 0 then Ratio(all.recovered, all.total) else 0.5, all.total, Everything));
    }
  }

  function WithCause(results: seq<Worked>): (kept: seq<Worked>)
    ensures forall w <- kept :: w.cause.Some?
  {
    if results == [] then []
    else
      var last := results[|results| - 1];
      WithCause(results[..|results| - 1]) + (if last.cause.Some? then [last] else [])
  }

  /** Accumulates the buckets, then reads them off in bin order. */
  method MeasureReliability(results: seq<Worked>, predict: Predictor, bins: int) returns (rows: Option<seq<Row>>)
    ensures rows == Reliability(results, predict, bins)
  {
    var buckets: map<int, Bucket> := map[];
    var used: seq<int> := [];
    for k := 0 to |results|
      invariant AllPredicted(results[..k], predict)
      invariant used == BinsUsed(results[..k], predict, bins)
      invariant forall i :: (if i in buckets then buckets[i] else EMPTY) == BucketOf(results[..k], predict, bins, i)
    {
      assert results[..k + 1][..k] == results[..k];
      var r := results[k];
      if r.cause.Some? {
        var p := predict(r);
        if p.None? {
          return None;
        }
        var i := BinOf(p.value, bins);
        var b := if i in buckets then buckets[i] else EMPTY;
        buckets := buckets[i := Bucket(b.count + 1, b.recovered + (if r.recovered then 1 else 0), b.predicted + p.value)];
        used := if i in used then used else used + [i];
      }
    }
    assert results[..|results|] == results;
    var out := ReadOff(buckets, Sort(used, Below), results, predict, bins);
    return Some(out);
  }

  method ReadOff(buckets: map<int, Bucket>, indexes: seq<int>, ghost results: seq<Worked>, ghost predict: Predictor,
                 ghost bins: int) returns (rows: seq<Row>)
    requires forall i :: (if i in buckets then buckets[i] else EMPTY) == BucketOf(results, predict, bins, i)
    ensures rows == RowsOf(results, predict, bins, indexes)
  {
    rows := [];
    for j := 0 to |indexes|
      invariant rows == RowsOf(results, predict, bins, indexes[..j])
    {
      assert indexes[..j + 1][..j] == indexes[..j];
      var b := if indexes[j] in buckets then buckets[indexes[j]] else EMPTY;
      rows := rows + (if b.count > 0 then [RowOf(b)] else []);
    }
    assert indexes[..|indexes|] == indexes;
  }

  method MeasureCalibrationError(rows: seq<Row>) returns (error: real)
    ensures error == CalibrationError(rows)
  {
    var n, gaps := 0, 0.0;
    for i := 0 to |rows|
      invariant n == Counted(rows[..i]) && gaps == Gaps(rows[..i])
    {
      assert rows[..i + 1][..i] == rows[..i];
      n := n + rows[i].count;
      gaps := gaps + Abs(rows[i].predicted - rows[i].observed) * rows[i].count as real;
    }
    assert rows[..|rows|] == rows;
    return if n == 0 then 0.0 else gaps / n as real;
  }
}
