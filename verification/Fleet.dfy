/** Recent failures per issuer, found by binary search. */
module Fleet {
  import opened Domain
  import opened Sorting

  datatype Failure = Failure(issuer: string, at: Instant)

  predicate Earlier(x: Instant, y: Instant) {
    x < y
  }

  predicate IsSorted(xs: seq<Instant>) {
    forall i, j | 0 <= i < j < |xs| :: xs[i] <= xs[j]
  }

  /** An issuer's stamps, in stream order; failures without an issuer are dropped. */
  function StampsOf(stream: seq<Failure>, issuer: string): seq<Instant> {
    if stream == [] then []
    else
      var last := stream[|stream| - 1];
      StampsOf(stream[..|stream| - 1], issuer) + (if last.issuer == issuer && issuer != "" then [last.at] else [])
  }

  function AllStamps(stream: seq<Failure>): seq<Instant> {
    if stream == [] then []
    else
      var last := stream[|stream| - 1];
      AllStamps(stream[..|stream| - 1]) + (if last.issuer != "" then [last.at] else [])
  }

  function Lowest(stamps: seq<Instant>): Option<Instant> {
    if stamps == [] then None
    else
      match Lowest(stamps[..|stamps| - 1])
      case None => Some(stamps[|stamps| - 1])
      case Some(x) => Some(if stamps[|stamps| - 1] < x then stamps[|stamps| - 1] else x)
  }

  function Highest(stamps: seq<Instant>): Option<Instant> {
    if stamps == [] then None
    else
      match Highest(stamps[..|stamps| - 1])
      case None => Some(stamps[|stamps| - 1])
      case Some(x) => Some(if stamps[|stamps| - 1] > x then stamps[|stamps| - 1] else x)
  }

  function OrZero(x: Option<Instant>): Instant {
    if x.Some? then x.value else 0
  }

  function RealMax(x: real, y: real): real {
    if x < y then y else x
  }

  function SpanHours(stamps: seq<Instant>): real {
    RealMax(1.0, (OrZero(Highest(stamps)) - OrZero(Lowest(stamps))) as real / HOUR as real)
  }

  /* ----- counting ----- */

  function CountUpTo(stamps: seq<Instant>, end: Instant): nat {
    if stamps == [] then 0
    else CountUpTo(stamps[..|stamps| - 1], end) + (if stamps[|stamps| - 1] <= end then 1 else 0)
  }

  function CountBefore(stamps: seq<Instant>, start: Instant): nat {
    if stamps == [] then 0
    else CountBefore(stamps[..|stamps| - 1], start) + (if stamps[|stamps| - 1] < start then 1 else 0)
  }

  /** The plain count: stamps in `[start, end]`. */
  function CountWithin(stamps: seq<Instant>, start: Instant, end: Instant): nat {
    if stamps == [] then 0
    else CountWithin(stamps[..|stamps| - 1], start, end) + (if start <= stamps[|stamps| - 1] <= end then 1 else 0)
  }

  /** The first position past every stamp up to `x`. */
  method BisectRight(stamps: seq<Instant>, x: Instant) returns (r: nat)
    requires IsSorted(stamps)
    ensures r <= |stamps|
    ensures forall i | 0 <= i < r :: stamps[i] <= x
    ensures forall i | r <= i < |stamps| :: stamps[i] > x
  {
    var lo, hi := 0, |stamps|;
    while lo < hi
      invariant 0 <= lo <= hi <= |stamps|
      invariant forall i | 0 <= i < lo :: stamps[i] <= x
      invariant forall i | hi <= i < |stamps| :: stamps[i] > x
    {
      var mid := (lo + hi) / 2;
      if x < stamps[mid] {
        hi := mid;
      } else {
        lo := mid + 1;
      }
    }
    return lo;
  }

  /** The first position of a stamp at or past `x`. */
  method BisectLeft(stamps: seq<Instant>, x: Instant) returns (r: nat)
    requires IsSorted(stamps)
    ensures r <= |stamps|
    ensures forall i | 0 <= i < r :: stamps[i] < x
    ensures forall i | r <= i < |stamps| :: stamps[i] >= x
  {
    var lo, hi := 0, |stamps|;
    while lo < hi
      invariant 0 <= lo <= hi <= |stamps|
      invariant forall i | 0 <= i < lo :: stamps[i] < x
      invariant forall i | hi <= i < |stamps| :: stamps[i] >= x
    {
      var mid := (lo + hi) / 2;
      if stamps[mid] < x {
        lo := mid + 1;
      } else {
        hi := mid;
      }
    }
    return lo;
  }

  lemma {:induction false} PositionIsCountUpTo(stamps: seq<Instant>, x: Instant, r: nat)
    requires r <= |stamps|
    requires forall i | 0 <= i < r :: stamps[i] <= x
    requires forall i | r <= i < |stamps| :: stamps[i] > x
    ensures CountUpTo(stamps, x) == r
  {
    if stamps != [] {
      var n := |stamps| - 1;
      PositionIsCountUpTo(stamps[..n], x, if r <= n then r else n);
    }
  }

  lemma {:induction false} PositionIsCountBefore(stamps: seq<Instant>, x: Instant, r: nat)
    requires r <= |stamps|
    requires forall i | 0 <= i < r :: stamps[i] < x
    requires forall i | r <= i < |stamps| :: stamps[i] >= x
    ensures CountBefore(stamps, x) == r
  {
    if stamps != [] {
      var n := |stamps| - 1;
      PositionIsCountBefore(stamps[..n], x, if r <= n then r else n);
    }
  }

  /* ----- counts do not depend on the order ----- */

  lemma {:induction false} CountOfInsert(x: Instant, ys: seq<Instant>, t: Instant)
    ensures CountUpTo(Insert(x, ys, Earlier), t) == CountUpTo(ys, t) + (if x <= t then 1 else 0)
    ensures CountBefore(Insert(x, ys, Earlier), t) == CountBefore(ys, t) + (if x < t then 1 else 0)
  {
    if ys != [] && Earlier(ys[0], x) {
      CountOfInsert(x, ys[1..], t);
      CountFromFront([ys[0]], Insert(x, ys[1..], Earlier), t);
      CountFromFront([ys[0]], ys[1..], t);
      assert ys == [ys[0]] + ys[1..];
    } else {
      CountFromFront([x], ys, t);
      assert ys == [] ==> [x] + ys == [x];
    }
  }

  lemma {:induction false} CountFromFront(xs: seq<Instant>, ys: seq<Instant>, t: Instant)
    ensures CountUpTo(xs + ys, t) == CountUpTo(xs, t) + CountUpTo(ys, t)
    ensures CountBefore(xs + ys, t) == CountBefore(xs, t) + CountBefore(ys, t)
  {
    if ys == [] {
      assert xs + ys == xs;
    } else {
      assert (xs + ys)[..|xs + ys| - 1] == xs + ys[..|ys| - 1];
      CountFromFront(xs, ys[..|ys| - 1], t);
    }
  }

  lemma {:induction false} CountOfSort(xs: seq<Instant>, t: Instant)
    ensures CountUpTo(Sort(xs, Earlier), t) == CountUpTo(xs, t)
    ensures CountBefore(Sort(xs, Earlier), t) == CountBefore(xs, t)
  {
    if xs != [] {
      CountOfSort(xs[1..], t);
      CountOfInsert(xs[0], Sort(xs[1..], Earlier), t);
      CountFromFront([xs[0]], xs[1..], t);
      assert xs == [xs[0]] + xs[1..];
    }
  }

  lemma SortedStamps(xs: seq<Instant>)
    ensures IsSorted(Sort(xs, Earlier)) && |Sort(xs, Earlier)| == |xs|
  {
    SortPermutes(xs, Earlier);
    SortAscends(xs, Earlier);
    forall i, j | 0 <= i < j < |Sort(xs, Earlier)| ensures Sort(xs, Earlier)[i] <= Sort(xs, Earlier)[j] {
      assert !Earlier(Sort(xs, Earlier)[j], Sort(xs, Earlier)[i]);
    }
  }

  /* ----- the view ----- */

  datatype Signal = Signal(failuresInWindow: int, expected: real, lift: real, spiking: bool)

  datatype Tuning = Tuning(windowMinutes: int, minFailures: int, spikeLift: real)

  function SignalFrom(count: int, stamps: nat, span: real, tuning: Tuning): Signal
    requires span >= 1.0
  {
    var perHour := stamps as real / span;
    var expected := RealMax(0.05, perHour * tuning.windowMinutes as real / 60.0);
    var lift := count as real / expected;
    Signal(count, expected, lift, count >= tuning.minFailures && lift >= tuning.spikeLift)
  }

  function Start(tuning: Tuning, at: Instant): Instant {
    at - tuning.windowMinutes * MINUTE
  }

  /** None for an issuer never seen. */
  function SignalOf(stream: seq<Failure>, tuning: Tuning, issuer: string, at: Instant): Option<Signal> {
    var stamps := StampsOf(stream, issuer);
    if stamps == [] then None
    else Some(SignalFrom(CountUpTo(stamps, at) - CountBefore(stamps, Start(tuning, at)), |stamps|,
                         SpanHours(AllStamps(stream)), tuning))
  }

  lemma StampsGrow(stream: seq<Failure>, f: Failure, issuer: string)
    ensures StampsOf(stream + [f], issuer) ==
            StampsOf(stream, issuer) + (if f.issuer == issuer && issuer != "" then [f.at] else [])
  {
    assert (stream + [f])[..|stream|] == stream;
  }

  method CollectStamps(stream: seq<Failure>) returns (stamps: map<string, seq<Instant>>)
    ensures forall i :: (if i in stamps then stamps[i] else []) == StampsOf(stream, i)
  {
    stamps := map[];
    for k := 0 to |stream|
      invariant forall i :: (if i in stamps then stamps[i] else []) == StampsOf(stream[..k], i)
    {
      assert stream[..k + 1] == stream[..k] + [stream[k]];
      var f := stream[k];
      ghost var sofar := stream[..k];
      forall i ensures StampsOf(sofar + [f], i) == StampsOf(sofar, i) + (if f.issuer == i && i != "" then [f.at] else []) {
        StampsGrow(sofar, f, i);
      }
      if f.issuer != "" {
        stamps := stamps[f.issuer := (if f.issuer in stamps then stamps[f.issuer] else []) + [f.at]];
      }
    }
    assert stream[..|stream|] == stream;
  }

  method MeasureExtent(stream: seq<Failure>) returns (low: Option<Instant>, high: Option<Instant>)
    ensures low == Lowest(AllStamps(stream)) && high == Highest(AllStamps(stream))
  {
    low, high := None, None;
    for k := 0 to |stream|
      invariant low == Lowest(AllStamps(stream[..k])) && high == Highest(AllStamps(stream[..k]))
    {
      assert stream[..k + 1][..k] == stream[..k];
      var f := stream[k];
      ghost var all := AllStamps(stream[..k]);
      assert (all + [f.at])[..|all|] == all && all + [] == all;
      if f.issuer != "" {
        low := Some(if low.None? || f.at < low.value then f.at else low.value);
        high := Some(if high.None? || f.at > high.value then f.at else high.value);
      }
    }
    assert stream[..|stream|] == stream;
  }

  /** Two positions in the sorted stamps count as the stamps do unsorted. */
  lemma PositionsAreCounts(unsorted: seq<Instant>, start: Instant, end: Instant, left: nat, right: nat)
    requires var stamps := Sort(unsorted, Earlier);
             && left <= |stamps| && right <= |stamps|
             && (forall i | 0 <= i < right :: stamps[i] <= end) && (forall i | right <= i < |stamps| :: stamps[i] > end)
             && (forall i | 0 <= i < left :: stamps[i] < start) && (forall i | left <= i < |stamps| :: stamps[i] >= start)
    ensures left == CountBefore(unsorted, start) && right == CountUpTo(unsorted, end)
  {
    var stamps := Sort(unsorted, Earlier);
    PositionIsCountUpTo(stamps, end, right);
    PositionIsCountBefore(stamps, start, left);
    CountOfSort(unsorted, end);
    CountOfSort(unsorted, start);
  }

  lemma SignalIsOf(stream: seq<Failure>, tuning: Tuning, issuer: string, at: Instant, count: int, n: nat, span: real)
    requires span == SpanHours(AllStamps(stream)) && n == |StampsOf(stream, issuer)| > 0
    requires count == CountUpTo(StampsOf(stream, issuer), at) - CountBefore(StampsOf(stream, issuer), Start(tuning, at))
    ensures SignalOf(stream, tuning, issuer, at) == Some(SignalFrom(count, n, span, tuning))
  {
  }

  class FleetView {
    const tuning: Tuning
    var times: map<string, seq<Instant>>
    var spanHours: real

    ghost predicate Valid(stream: seq<Failure>)
      reads this
    {
      && spanHours == SpanHours(AllStamps(stream))
      && forall k :: (if k in times then times[k] else []) == Sort(StampsOf(stream, k), Earlier)
    }

    /** Collects stamps and the extent of the stream, then sorts each issuer's. */
    constructor (stream: seq<Failure>, tuning: Tuning)
      ensures Valid(stream) && this.tuning == tuning
    {
      this.tuning := tuning;
      var stamps := CollectStamps(stream);
      var low, high := MeasureExtent(stream);
      times := map k | k in stamps :: Sort(stamps[k], Earlier);
      spanHours := RealMax(1.0, (OrZero(high) - OrZero(low)) as real / HOUR as real);
    }

    method SignalAt(issuer: string, at: Instant, ghost stream: seq<Failure>) returns (s: Option<Signal>)
      requires Valid(stream)
      ensures s == SignalOf(stream, tuning, issuer, at)
    {
      var stamps := if issuer in times then times[issuer] else [];
      SortedStamps(StampsOf(stream, issuer));
      if stamps == [] {
        return None;
      }
      var right := BisectRight(stamps, at);
      var left := BisectLeft(stamps, Start(tuning, at));
      PositionsAreCounts(StampsOf(stream, issuer), Start(tuning, at), at, left, right);
      var count: int := right as int - left as int;
      var signal := SignalFrom(count, |stamps|, spanHours, tuning);
      SignalIsOf(stream, tuning, issuer, at, count, |stamps|, spanHours);
      return Some(signal);
    }
  }

  /* ----- what a signal depends on ----- */

  lemma {:induction false} CountsSubtract(stamps: seq<Instant>, start: Instant, end: Instant)
    requires start <= end
    ensures CountUpTo(stamps, end) - CountBefore(stamps, start) == CountWithin(stamps, start, end)
  {
    if stamps != [] {
      CountsSubtract(stamps[..|stamps| - 1], start, end);
    }
  }

  /** The window count is the plain count of that issuer's failures in the closed window. */
  lemma CountIsPlainCount(stream: seq<Failure>, tuning: Tuning, issuer: string, at: Instant)
    requires tuning.windowMinutes >= 0
    ensures SignalOf(stream, tuning, issuer, at).Some? <==> StampsOf(stream, issuer) != []
    ensures SignalOf(stream, tuning, issuer, at).Some? ==>
              SignalOf(stream, tuning, issuer, at).value.failuresInWindow ==
              CountWithin(StampsOf(stream, issuer), at - tuning.windowMinutes * 60_000_000, at)
  {
    CountsSubtract(StampsOf(stream, issuer), Start(tuning, at), at);
  }

  /** A count of a closed window is of the positions that hold a stamp in it. */
  lemma {:induction false} WindowCountExactly(stamps: seq<Instant>, start: Instant, end: Instant)
    ensures CountWithin(stamps, start, end) == |set i | 0 <= i < |stamps| && start <= stamps[i] <= end|
  {
    var all := set i | 0 <= i < |stamps| && start <= stamps[i] <= end;
    if stamps != [] {
      var n := |stamps| - 1;
      var before := set i | 0 <= i < n && start <= stamps[..n][i] <= end;
      WindowCountExactly(stamps[..n], start, end);
      assert all == if start <= stamps[n] <= end then before + {n} else before;
    }
  }

  lemma {:induction false} ExtentIsOfTheStamps(stamps: seq<Instant>) returns (lo: nat, hi: nat)
    requires stamps != []
    ensures lo < |stamps| && hi < |stamps| && Lowest(stamps) == Some(stamps[lo]) && Highest(stamps) == Some(stamps[hi])
    ensures forall i | 0 <= i < |stamps| :: stamps[lo] <= stamps[i] <= stamps[hi]
  {
    var n := |stamps| - 1;
    if n == 0 {
      lo, hi := 0, 0;
    } else {
      lo, hi := ExtentIsOfTheStamps(stamps[..n]);
      lo := if stamps[n] < stamps[lo] then n else lo;
      hi := if stamps[n] > stamps[hi] then n else hi;
    }
  }

  lemma HoursOf(micros: int)
    ensures micros as real / HOUR as real * 3_600_000_000.0 == micros as real
  {
  }

  /** The span is that from the earliest to the latest stamp, in hours, and at least one. */
  lemma SpanExactly(stamps: seq<Instant>) returns (lo: nat, hi: nat)
    requires stamps != []
    ensures lo < |stamps| && hi < |stamps| && forall i | 0 <= i < |stamps| :: stamps[lo] <= stamps[i] <= stamps[hi]
    ensures var micros := stamps[hi] - stamps[lo];
            SpanHours(stamps) * 3_600_000_000.0 == (if micros < 3_600_000_000 then 3_600_000_000 else micros) as real
  {
    lo, hi := ExtentIsOfTheStamps(stamps);
    HoursOf(stamps[hi] - stamps[lo]);
  }

  /** What is expected in a window is its share of the issuer's failures over the span, and at
      least a twentieth of one. */
  lemma ExpectedExactly(count: int, stamps: nat, span: real, tuning: Tuning)
    requires span >= 1.0
    ensures var expected := SignalFrom(count, stamps, span, tuning).expected;
            var share := stamps as real / span * tuning.windowMinutes as real;
            && 20.0 * expected >= 1.0 && 60.0 * expected >= share
            && (20.0 * expected == 1.0 || 60.0 * expected == share)
    ensures SignalFrom(count, stamps, span, tuning).lift * SignalFrom(count, stamps, span, tuning).expected == count as real
    ensures SignalFrom(count, stamps, span, tuning).failuresInWindow == count
  {
  }

  /** The stream as it was known at `at`. */
  function Known(stream: seq<Failure>, at: Instant): seq<Failure> {
    if stream == [] then []
    else
      var last := stream[|stream| - 1];
      Known(stream[..|stream| - 1], at) + (if last.at <= at then [last] else [])
  }

  lemma StampsAppend(stream: seq<Failure>, f: Failure, issuer: string, start: Instant, at: Instant)
    ensures CountWithin(StampsOf(stream + [f], issuer), start, at) ==
            CountWithin(StampsOf(stream, issuer), start, at)
            + (if f.issuer == issuer && issuer != "" && start <= f.at <= at then 1 else 0)
  {
    var a := StampsOf(stream, issuer);
    assert (stream + [f])[..|stream|] == stream;
    assert (a + [f.at])[..|a|] == a;
    assert a + [] == a;
  }

  lemma KnownGrows(stream: seq<Failure>, f: Failure, at: Instant)
    ensures Known(stream + [f], at) == if f.at <= at then Known(stream, at) + [f] else Known(stream, at)
  {
    assert (stream + [f])[..|stream|] == stream;
  }

  lemma {:induction false} OnlyThePastIsCounted(stream: seq<Failure>, issuer: string, start: Instant, at: Instant)
    ensures CountWithin(StampsOf(stream, issuer), start, at) == CountWithin(StampsOf(Known(stream, at), issuer), start, at)
  {
    if stream != [] {
      var n := |stream| - 1;
      OnlyThePastIsCounted(stream[..n], issuer, start, at);
      assert stream == stream[..n] + [stream[n]];
      StampsAppend(stream[..n], stream[n], issuer, start, at);
      KnownGrows(stream[..n], stream[n], at);
      StampsAppend(Known(stream[..n], at), stream[n], issuer, start, at);
    }
  }

  /** Two streams that agree up to `at` count the same, whatever comes later, as long as both
      know the issuer. */
  lemma TheFutureIsNotCounted(stream: seq<Failure>, other: seq<Failure>, tuning: Tuning, issuer: string, at: Instant)
    requires tuning.windowMinutes >= 0 && Known(stream, at) == Known(other, at)
    requires StampsOf(stream, issuer) != [] && StampsOf(other, issuer) != []
    ensures SignalOf(stream, tuning, issuer, at).value.failuresInWindow ==
            SignalOf(other, tuning, issuer, at).value.failuresInWindow
  {
    CountIsPlainCount(stream, tuning, issuer, at);
    CountIsPlainCount(other, tuning, issuer, at);
    OnlyThePastIsCounted(stream, issuer, Start(tuning, at), at);
    OnlyThePastIsCounted(other, issuer, Start(tuning, at), at);
  }

  /** What the whole stream, its future included, leads one to expect in a window. */
  function ExpectedOf(stream: seq<Failure>, tuning: Tuning, issuer: string): real {
    SignalFrom(0, |StampsOf(stream, issuer)|, SpanHours(AllStamps(stream)), tuning).expected
  }

  lemma SignalsDiffer(count: int, m: nat, x: real, n: nat, y: real, tuning: Tuning)
    requires x >= 1.0 && y >= 1.0
    ensures SignalFrom(count, m, x, tuning) == SignalFrom(count, n, y, tuning) <==>
            SignalFrom(0, m, x, tuning).expected == SignalFrom(0, n, y, tuning).expected
  {
  }

  /** Two streams that agree up to `at` give one signal exactly when both know the issuer or
      neither does, and they expect as much of one they know. */
  lemma SignalsAgreeExactly(stream: seq<Failure>, other: seq<Failure>, tuning: Tuning, issuer: string, at: Instant)
    requires tuning.windowMinutes >= 0 && Known(stream, at) == Known(other, at)
    ensures SignalOf(stream, tuning, issuer, at) == SignalOf(other, tuning, issuer, at) <==>
            && (StampsOf(stream, issuer) == [] <==> StampsOf(other, issuer) == [])
            && (StampsOf(stream, issuer) != [] ==> ExpectedOf(stream, tuning, issuer) == ExpectedOf(other, tuning, issuer))
  {
    if StampsOf(stream, issuer) != [] && StampsOf(other, issuer) != [] {
      TheFutureIsNotCounted(stream, other, tuning, issuer, at);
      var count := SignalOf(stream, tuning, issuer, at).value.failuresInWindow;
      SignalsDiffer(count, |StampsOf(stream, issuer)|, SpanHours(AllStamps(stream)),
                    |StampsOf(other, issuer)|, SpanHours(AllStamps(other)), tuning);
    }
  }

  /** The traffic up to `at` spikes; an issuer never seen does not. */
  predicate Spikes(stream: seq<Failure>, tuning: Tuning, issuer: string, at: Instant) {
    match SignalOf(stream, tuning, issuer, at)
    case None => false
    case Some(signal) => signal.spiking
  }

  /** Enough failures, and enough times what is expected. */
  predicate Reaches(count: int, expected: real, tuning: Tuning) {
    count >= tuning.minFailures && tuning.spikeLift * expected <= count as real
  }

  lemma LiftReaches(count: int, expected: real, bar: real)
    requires expected > 0.0
    ensures count as real / expected >= bar <==> bar * expected <= count as real
  {
    var lift := count as real / expected;
    assert lift * expected == count as real;
    if lift >= bar {
      assert (lift - bar) * expected >= 0.0;
    } else {
      assert (bar - lift) * expected > 0.0;
    }
  }

  lemma SpikingReaches(count: int, stamps: nat, span: real, tuning: Tuning)
    requires span >= 1.0
    ensures SignalFrom(count, stamps, span, tuning).spiking <==>
            Reaches(count, SignalFrom(0, stamps, span, tuning).expected, tuning)
  {
    LiftReaches(count, SignalFrom(0, stamps, span, tuning).expected, tuning.spikeLift);
  }

  /** A spike is enough failures in the window, and enough times what is expected. */
  lemma SpikesExactly(stream: seq<Failure>, tuning: Tuning, issuer: string, at: Instant)
    requires tuning.windowMinutes >= 0
    ensures var count := CountWithin(StampsOf(stream, issuer), Start(tuning, at), at);
            Spikes(stream, tuning, issuer, at) <==>
            StampsOf(stream, issuer) != [] && Reaches(count, ExpectedOf(stream, tuning, issuer), tuning)
  {
    CountsSubtract(StampsOf(stream, issuer), Start(tuning, at), at);
    SpikingReaches(CountWithin(StampsOf(stream, issuer), Start(tuning, at), at), |StampsOf(stream, issuer)|,
                   SpanHours(AllStamps(stream)), tuning);
  }

  /** What comes after `at` takes a spike away exactly when the count clears the bar and what
      is expected without it, but no longer what is expected with it. */
  lemma TheFutureQuellsExactly(stream: seq<Failure>, other: seq<Failure>, tuning: Tuning, issuer: string, at: Instant)
    requires tuning.windowMinutes >= 0 && Known(stream, at) == Known(other, at)
    requires StampsOf(stream, issuer) != [] && StampsOf(other, issuer) != []
    ensures var count := CountWithin(StampsOf(Known(stream, at), issuer), Start(tuning, at), at);
            Spikes(stream, tuning, issuer, at) && !Spikes(other, tuning, issuer, at) <==>
            Reaches(count, ExpectedOf(stream, tuning, issuer), tuning) && !Reaches(count, ExpectedOf(other, tuning, issuer), tuning)
  {
    SpikesExactly(stream, tuning, issuer, at);
    SpikesExactly(other, tuning, issuer, at);
    OnlyThePastIsCounted(stream, issuer, Start(tuning, at), at);
    OnlyThePastIsCounted(other, issuer, Start(tuning, at), at);
  }

  /** One later failure can do it: what is expected doubles, and the lift halves. */
  lemma TheFutureIsExpected()
    ensures var tuning := Tuning(60, 1, 1.0);
            var now, later := [Failure("bank", 0)], [Failure("bank", 0), Failure("bank", MINUTE)];
            && Known(now, 0) == Known(later, 0)
            && SignalOf(now, tuning, "bank", 0) == Some(Signal(1, 1.0, 1.0, true))
            && SignalOf(later, tuning, "bank", 0) == Some(Signal(1, 2.0, 0.5, false))
  {
    var f, g := Failure("bank", 0), Failure("bank", MINUTE);
    OneStamp();
    TwoStamps();
    assert [f, g][..1] == [f] && [f][..0] == [];
    assert StampsOf([], "bank") == [] && AllStamps([]) == [] && Known([], 0) == [];
    assert StampsOf([f], "bank") == AllStamps([f]) == [0];
    assert StampsOf([f, g], "bank") == AllStamps([f, g]) == [0, MINUTE];
    assert Known([f], 0) == [f] && Known([f, g], 0) == [f];
    assert SignalFrom(1, 1, 1.0, Tuning(60, 1, 1.0)) == Signal(1, 1.0, 1.0, true);
    assert SignalFrom(1, 2, 1.0, Tuning(60, 1, 1.0)) == Signal(1, 2.0, 0.5, false);
  }

  lemma OneStamp()
    ensures var one := [0];
            CountUpTo(one, 0) == 1 && CountBefore(one, -60 * MINUTE) == 0 && SpanHours(one) == 1.0
  {
    var one: seq<Instant> := [0];
    assert one[..0] == [];
    assert Lowest(one) == Some(0) && Highest(one) == Some(0);
  }

  lemma TwoStamps()
    ensures var two := [0, MINUTE];
            CountUpTo(two, 0) == 1 && CountBefore(two, -60 * MINUTE) == 0 && SpanHours(two) == 1.0
  {
    var two: seq<Instant> := [0, MINUTE];
    OneStamp();
    assert two[..1] == [0];
    assert Lowest([0]) == Some(0) && Highest([0]) == Some(0) by {
      var one: seq<Instant> := [0];
      assert one[..0] == [];
    }
    assert Lowest(two) == Some(0) && Highest(two) == Some(MINUTE);
    assert MINUTE as real / HOUR as real <= 1.0;
  }
}
