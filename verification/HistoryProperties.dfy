/** What the history indexes may be trusted for. */
module HistoryProperties {
  import opened Domain
  import opened Ratios
  import opened Sorting
  import opened History

  /* ----- counters are recounts ----- */

  function CountIn(counts: Counter, c: RootCause): nat {
    if counts == [] then 0 else (if counts[0].0 == c then counts[0].1 else 0) + CountIn(counts[1..], c)
  }

  lemma {:induction false} BumpCounts(counts: Counter, cause: RootCause, c: RootCause)
    ensures CountIn(Bump(counts, cause), c) == CountIn(counts, c) + (if c == cause then 1 else 0)
    ensures Sum(Bump(counts, cause)) == Sum(counts) + 1
  {
    if counts != [] && counts[0].0 != cause {
      BumpCounts(counts[1..], cause, c);
    }
  }

  /** A counter holds each cause as often as it occurs. */
  lemma {:induction false} TalliedIsRecount(causes: seq<RootCause>, c: RootCause)
    ensures CountIn(Tallied(causes), c) == multiset(causes)[c]
    ensures Sum(Tallied(causes)) == |causes|
  {
    if causes != [] {
      var n := |causes| - 1;
      assert causes == causes[..n] + [causes[n]];
      TalliedIsRecount(causes[..n], c);
      BumpCounts(Tallied(causes[..n]), causes[n], c);
    }
  }

  lemma {:induction false} BumpKeepsKeys(counts: Counter, cause: RootCause)
    requires forall i, j | 0 <= i < j < |counts| :: counts[i].0 != counts[j].0
    requires forall e <- counts :: e.1 > 0
    ensures forall i, j | 0 <= i < j < |Bump(counts, cause)| :: Bump(counts, cause)[i].0 != Bump(counts, cause)[j].0
    ensures forall e <- Bump(counts, cause) :: e.1 > 0 && (e.0 == cause || exists f <- counts :: f.0 == e.0)
  {
    if counts != [] {
      assert counts == [counts[0]] + counts[1..];
      if counts[0].0 == cause {
        forall e <- counts[1..] ensures e.0 != cause {
        }
      } else {
        BumpKeepsKeys(counts[1..], cause);
        forall e <- Bump(counts[1..], cause) ensures e.0 != counts[0].0 {
        }
      }
    }
  }

  /** Each cause is listed once, with a positive count. */
  lemma {:induction false} TalliedListsOnce(causes: seq<RootCause>)
    ensures forall i, j | 0 <= i < j < |Tallied(causes)| :: Tallied(causes)[i].0 != Tallied(causes)[j].0
    ensures forall e <- Tallied(causes) :: e.1 > 0
  {
    if causes != [] {
      TalliedListsOnce(causes[..|causes| - 1]);
      BumpKeepsKeys(Tallied(causes[..|causes| - 1]), causes[|causes| - 1]);
    }
  }

  lemma {:induction false} ListedCount(counts: Counter, e: (RootCause, nat))
    requires forall i, j | 0 <= i < j < |counts| :: counts[i].0 != counts[j].0
    requires e in counts
    ensures CountIn(counts, e.0) == e.1
  {
    if counts[0] == e {
      NotListed(counts[1..], e.0);
    } else {
      assert e in counts[1..];
      ListedCount(counts[1..], e);
    }
  }

  lemma {:induction false} NotListed(counts: Counter, c: RootCause)
    requires forall e <- counts :: e.0 != c
    ensures CountIn(counts, c) == 0
  {
    if counts != [] {
      NotListed(counts[1..], c);
    }
  }

  lemma {:induction false} CountedIsListed(counts: Counter, c: RootCause)
    requires CountIn(counts, c) > 0
    ensures exists e <- counts :: e.0 == c
  {
    if counts[0].0 == c {
      assert counts[0] in counts;
    } else {
      CountedIsListed(counts[1..], c);
      var e :| e in counts[1..] && e.0 == c;
      assert e in counts;
    }
  }

  /* ----- the ranked counter ----- */

  lemma MoreCommonIsWeakOrder()
    ensures IsWeakOrder(MoreCommon)
  {
  }

  /** Ranked, a counter has the same entries, the most counted first. */
  lemma RankedEntries(counts: Counter)
    ensures forall e :: e in MostCommon(counts) <==> e in counts
    ensures |MostCommon(counts)| == |counts|
    ensures forall i, j | 0 <= i < j < |counts| :: MostCommon(counts)[i].1 >= MostCommon(counts)[j].1
  {
    SortPermutes(counts, MoreCommon);
    MoreCommonIsWeakOrder();
    SortAscends(counts, MoreCommon);
    forall e ensures e in MostCommon(counts) <==> e in counts {
      assert e in multiset(MostCommon(counts)) <==> e in multiset(counts);
    }
    forall i, j | 0 <= i < j < |counts| ensures MostCommon(counts)[i].1 >= MostCommon(counts)[j].1 {
      assert !MoreCommon(MostCommon(counts)[j], MostCommon(counts)[i]);
    }
  }

  lemma {:induction false} SumOfInsert(x: (RootCause, nat), ys: Counter)
    ensures Sum(Insert(x, ys, MoreCommon)) == x.1 + Sum(ys)
  {
    if ys != [] && MoreCommon(ys[0], x) {
      SumOfInsert(x, ys[1..]);
    }
  }

  lemma {:induction false} SumOfRanked(counts: Counter)
    ensures Sum(MostCommon(counts)) == Sum(counts)
  {
    if counts != [] {
      SumOfRanked(counts[1..]);
      SumOfInsert(counts[0], MostCommon(counts[1..]));
    }
  }

  /* ----- exact recall ----- */

  /** With a bar above one half, a wording is known exactly when some cause clears it; that
      cause is unique, so nothing else can be answered. */
  lemma ExactIsTheMajority(causes: seq<RootCause>, minPurity: real, c: RootCause, p: real)
    requires minPurity > 0.5
    ensures ExactOf(Tallied(causes), minPurity) == Some((c, p)) <==>
            causes != [] && p == Ratio(multiset(causes)[c], |causes|) && p >= minPurity
  {
    var counts := Tallied(causes);
    TalliedIsRecount(causes, c);
    TalliedListsOnce(causes);
    RankedEntries(counts);
    if causes != [] {
      TalliedIsEmptyExactly(causes);
      var first := MostCommon(counts)[0];
      assert first in MostCommon(counts);
      ListedCount(counts, first);
      TalliedIsRecount(causes, first.0);
      if Ratio(multiset(causes)[c], |causes|) >= minPurity {
        HalfIsMore(multiset(causes)[c], |causes|, minPurity);
        CountedIsListed(counts, c);
        var e :| e in counts && e.0 == c;
        ListedCount(counts, e);
        assert e in MostCommon(counts);
        assert first.1 >= e.1;
        if first.0 != c {
          TwoCounts(causes, c, first.0);
        }
      }
    }
  }

  lemma PositiveProduct(x: real, y: real)
    requires x > 0.0 && y > 0.0
    ensures x * y > 0.0
  {
  }

  lemma MoreThanHalf(p: real, t: real, x: real)
    requires p > 0.5 && t > 0.0 && p * t == x
    ensures x > 0.5 * t
  {
    PositiveProduct(p - 0.5, t);
    assert (p - 0.5) * t == p * t - 0.5 * t;
  }

  lemma HalfIsMore(n: nat, total: nat, minPurity: real)
    requires total > 0 && Ratio(n, total) >= minPurity > 0.5
    ensures 2 * n > total
  {
    RatioTimes(n, total);
    MoreThanHalf(Ratio(n, total), total as real, n as real);
    assert (2 * n) as real == 2.0 * n as real;
  }

  lemma {:induction false} TwoCounts(causes: seq<RootCause>, c: RootCause, d: RootCause)
    requires c != d
    ensures multiset(causes)[c] + multiset(causes)[d] <= |causes|
  {
    if causes != [] {
      assert causes == [causes[0]] + causes[1..];
      TwoCounts(causes[1..], c, d);
    }
  }

  /** Causes of the exemplars that pass a test, in order. */
  function Picked(test: Exemplar -> bool, exemplars: seq<Exemplar>): seq<RootCause> {
    if exemplars == [] then []
    else
      var last := exemplars[|exemplars| - 1];
      Picked(test, exemplars[..|exemplars| - 1]) + (if test(last) then [last.cause] else [])
  }

  lemma {:induction false} PickedAppended(test: Exemplar -> bool, a: seq<Exemplar>, b: seq<Exemplar>)
    ensures Picked(test, a + b) == Picked(test, a) + Picked(test, b)
  {
    if b == [] {
      assert a + b == a;
    } else {
      assert (a + b)[..|a + b| - 1] == a + b[..|b| - 1];
      PickedAppended(test, a, b[..|b| - 1]);
    }
  }

  lemma PickedOne(test: Exemplar -> bool, x: Exemplar)
    ensures Picked(test, [x]) == if test(x) then [x.cause] else []
  {
    assert [x][..0] == [];
  }

  /** One exemplar in the middle contributes its own cause and nothing else. */
  lemma PickedMiddle(test: Exemplar -> bool, a: seq<Exemplar>, x: Exemplar, b: seq<Exemplar>)
    ensures multiset(Picked(test, a + [x] + b)) ==
            multiset(Picked(test, a + b)) + multiset(if test(x) then [x.cause] else [])
  {
    PickedAppended(test, a + [x], b);
    PickedAppended(test, a, [x]);
    PickedAppended(test, a, b);
    PickedOne(test, x);
  }

  /** How often each cause is picked does not depend on the order of the history. */
  lemma {:induction false} PickedForgetsOrder(test: Exemplar -> bool, xs: seq<Exemplar>, ys: seq<Exemplar>)
    requires multiset(xs) == multiset(ys)
    ensures multiset(Picked(test, xs)) == multiset(Picked(test, ys))
    decreases |xs|
  {
    assert |xs| == |multiset(xs)| == |multiset(ys)| == |ys|;
    if xs != [] {
      var before, x := xs[..|xs| - 1], xs[|xs| - 1];
      assert xs == before + [x] == before + [x] + [];
      assert x in multiset(ys);
      var j :| 0 <= j < |ys| && ys[j] == x;
      assert ys == ys[..j] + [x] + ys[j + 1..];
      SameRest(xs, before, ys, ys[..j], x, ys[j + 1..]);
      PickedForgetsOrder(test, before, ys[..j] + ys[j + 1..]);
      PickedMiddle(test, before, x, []);
      assert before + [] == before;
      PickedMiddle(test, ys[..j], x, ys[j + 1..]);
    }
  }

  lemma {:induction false} TextIsPicked(fold: string -> string, exemplars: seq<Exemplar>, text: string)
    ensures CausesOfText(fold, exemplars, text) == Picked((x: Exemplar) => fold(x.description) == text, exemplars)
  {
    if exemplars != [] {
      TextIsPicked(fold, exemplars[..|exemplars| - 1], text);
    }
  }

  /** Which causes a wording has does not depend on the order of the history. */
  lemma TextForgetsOrder(fold: string -> string, xs: seq<Exemplar>, ys: seq<Exemplar>, text: string)
    requires multiset(xs) == multiset(ys)
    ensures multiset(CausesOfText(fold, xs, text)) == multiset(CausesOfText(fold, ys, text))
  {
    TextIsPicked(fold, xs, text);
    TextIsPicked(fold, ys, text);
    PickedForgetsOrder((x: Exemplar) => fold(x.description) == text, xs, ys);
  }

  lemma SameRest(xs: seq<Exemplar>, before: seq<Exemplar>, ys: seq<Exemplar>, a: seq<Exemplar>, x: Exemplar, b: seq<Exemplar>)
    requires xs == before + [x] && ys == a + [x] + b && multiset(xs) == multiset(ys)
    ensures multiset(before) == multiset(a + b)
  {
    assert multiset(before) == multiset(xs) - multiset{x};
    assert multiset(ys) == multiset(a) + multiset{x} + multiset(b);
    assert multiset(a + b) == multiset(ys) - multiset{x};
  }

  /** With a bar above one half, exact recall gives the same answer however the history was
      ordered. */
  lemma ExactForgetsOrder(fold: string -> string, xs: seq<Exemplar>, ys: seq<Exemplar>, description: string, minPurity: real)
    requires multiset(xs) == multiset(ys) && minPurity > 0.5
    ensures Exact(fold, xs, description, minPurity) == Exact(fold, ys, description, minPurity)
  {
    var a, b := CausesOfText(fold, xs, fold(description)), CausesOfText(fold, ys, fold(description));
    TextForgetsOrder(fold, xs, ys, fold(description));
    assert |a| == |multiset(a)| == |multiset(b)| == |b|;
    var ea, eb := ExactOf(Tallied(a), minPurity), ExactOf(Tallied(b), minPurity);
    if ea.Some? {
      ExactIsTheMajority(a, minPurity, ea.value.0, ea.value.1);
      ExactIsTheMajority(b, minPurity, ea.value.0, ea.value.1);
    } else if eb.Some? {
      ExactIsTheMajority(b, minPurity, eb.value.0, eb.value.1);
      ExactIsTheMajority(a, minPurity, eb.value.0, eb.value.1);
    }
  }

  /** At one half or below it does not: of two equal causes, the first seen wins. */
  lemma ALowBarFollowsOrder(fold: string -> string, text: string, minPurity: real)
    requires minPurity <= 0.5
    ensures var x := Exemplar(text, "", "", "", "", "", InsufficientFunds);
            var y := x.(cause := RiskDeclined);
            Exact(fold, [x, y], text, minPurity) != Exact(fold, [y, x], text, minPurity)
  {
    var x := Exemplar(text, "", "", "", "", "", InsufficientFunds);
    var y := x.(cause := RiskDeclined);
    TwoEqualCauses(fold, x, y, minPurity);
    TwoEqualCauses(fold, y, x, minPurity);
  }

  lemma TalliedTwo(a: RootCause, b: RootCause)
    requires a != b
    ensures Tallied([a, b]) == [(a, 1), (b, 1)]
  {
    var one: (RootCause, nat), two: (RootCause, nat) := (a, 1), (b, 1);
    assert [a, b][..1] == [a] && [a][..0] == [];
    assert Tallied([]) == [];
    assert Tallied([a]) == [one];
    assert [one][1..] == [];
    assert Bump([], b) == [two];
  }

  lemma RankedTie(a: (RootCause, nat), b: (RootCause, nat))
    requires a.1 == 1 && b.1 == 1
    ensures MostCommon([a, b]) == [a, b] && Sum([a, b]) == 2
  {
    assert [a, b][1..] == [b] && [b][1..] == [];
    assert Sort([], MoreCommon) == [];
    assert Sort([b], MoreCommon) == [b];
    assert Sum([b]) == 1;
  }

  lemma TwoEqualCauses(fold: string -> string, x: Exemplar, y: Exemplar, minPurity: real)
    requires x.description == y.description && x.cause != y.cause && minPurity <= 0.5
    ensures Exact(fold, [x, y], x.description, minPurity) == Some((x.cause, 0.5))
  {
    var text := fold(x.description);
    assert [x, y][..1] == [x];
    assert [x][..0] == [];
    assert CausesOfText(fold, [x], text) == [x.cause];
    assert CausesOfText(fold, [x, y], text) == [x.cause, y.cause];
    TalliedTwo(x.cause, y.cause);
    RankedTie((x.cause, 1), (y.cause, 1));
    assert Ratio(1, 2) == 0.5;
  }

  /** A wording seen before is known or ambiguous, never both; an unseen one is neither. */
  lemma KnownOrAmbiguous(fold: string -> string, exemplars: seq<Exemplar>, description: string)
    ensures var seen := CausesOfText(fold, exemplars, fold(description)) != [];
            var known := Exact(fold, exemplars, description, 0.8).Some?;
            var ambiguous := seen && Exact(fold, exemplars, description, 0.8).None?;
            (known || ambiguous <==> seen) && !(known && ambiguous)
  {
    TalliedIsEmptyExactly(CausesOfText(fold, exemplars, fold(description)));
  }

  /* ----- priors ----- */

  /** What is filed under a key is filed under every more general one. */
  lemma GeneralKeysHold(ex: Exemplar, surface: string, rail: string, step: string, source: string, code: string, i: nat, j: nat)
    requires i <= j < 5
    requires ContextKeys(surface, rail, step, source, code)[i] in KeysOf(ex)
    ensures ContextKeys(surface, rail, step, source, code)[j] in KeysOf(ex)
  {
    var keys, own := ContextKeys(surface, rail, step, source, code), KeysOf(ex);
    var k :| 0 <= k < 5 && own[k] == keys[i];
    assert |own[k]| == 6 - k && |keys[i]| == 6 - i;
    assert k == i;
    assert surface == keys[i][1] == own[i][1] == ex.surface;
    assert i <= 3 ==> rail == keys[i][2] == own[i][2] == ex.rail;
    assert i <= 2 ==> step == keys[i][3] == own[i][3] == ex.step;
    assert i <= 1 ==> source == keys[i][4] == own[i][4] == ex.source;
    assert keys[j] == own[j];
  }

  /** An exemplar is filed under a level of a context exactly when they share the surface and,
      as the levels get more specific, the rail, the step, the source and the code. */
  lemma FiledExactly(ex: Exemplar, surface: string, rail: string, step: string, source: string, code: string, i: nat)
    requires i < 5
    ensures ContextKeys(surface, rail, step, source, code)[i] in KeysOf(ex) <==>
            && ex.surface == surface
            && (i <= 3 ==> ex.rail == rail) && (i <= 2 ==> ex.step == step)
            && (i <= 1 ==> ex.source == source) && (i == 0 ==> ex.code == code)
  {
    var keys, own := ContextKeys(surface, rail, step, source, code), KeysOf(ex);
    if keys[i] in own {
      var k :| 0 <= k < 5 && own[k] == keys[i];
      assert |own[k]| == 6 - k && |keys[i]| == 6 - i;
      assert surface == keys[i][1] == own[i][1] == ex.surface;
      assert i <= 3 ==> rail == keys[i][2] == own[i][2] == ex.rail;
      assert i <= 2 ==> step == keys[i][3] == own[i][3] == ex.step;
      assert i <= 1 ==> source == keys[i][4] == own[i][4] == ex.source;
      assert i == 0 ==> code == keys[i][5] == own[i][5] == ex.code;
    } else {
      assert keys[i] != own[i];
    }
  }

  /** Support never falls as the context gets less specific. */
  lemma {:induction false} SupportGrows(exemplars: seq<Exemplar>, surface: string, rail: string, step: string, source: string,
                                        code: string, i: nat, j: nat)
    requires i <= j < 5
    ensures var keys := ContextKeys(surface, rail, step, source, code);
            |CausesOfContext(exemplars, keys[i])| <= |CausesOfContext(exemplars, keys[j])| <= |Causes(exemplars)|
    ensures |Causes(exemplars)| == |exemplars|
  {
    if exemplars != [] {
      var last := exemplars[|exemplars| - 1];
      SupportGrows(exemplars[..|exemplars| - 1], surface, rail, step, source, code, i, j);
      if ContextKeys(surface, rail, step, source, code)[i] in KeysOf(last) {
        GeneralKeysHold(last, surface, rail, step, source, code, i, j);
      }
    }
  }

  predicate Supported(exemplars: seq<Exemplar>, key: seq<string>, minSupport: int) {
    CausesOfContext(exemplars, key) != [] && |CausesOfContext(exemplars, key)| >= minSupport
  }

  /** The causes the prior is drawn from: those of the most specific context with support,
      or of the whole history when none has it. */
  function Pool(exemplars: seq<Exemplar>, keys: seq<seq<string>>, minSupport: int): seq<RootCause> {
    if keys == [] then Causes(exemplars)
    else if Supported(exemplars, keys[0], minSupport) then CausesOfContext(exemplars, keys[0])
    else Pool(exemplars, keys[1..], minSupport)
  }

  lemma {:induction false} PriorComesFromPool(exemplars: seq<Exemplar>, keys: seq<seq<string>>, minSupport: int)
    requires forall i | 0 <= i < |keys| :: keys[i] != []
    ensures var counts := Tallied(Pool(exemplars, keys, minSupport));
            PriorFrom(exemplars, keys, minSupport).0 == Shares(MostCommon(counts), Sum(counts))
  {
    if keys != [] {
      SupportIsCounted(exemplars, keys[0], minSupport);
      PriorComesFromPool(exemplars, keys[1..], minSupport);
    }
  }

  lemma SupportIsCounted(exemplars: seq<Exemplar>, key: seq<string>, minSupport: int)
    ensures var counts := Tallied(CausesOfContext(exemplars, key));
            counts != [] && Sum(counts) >= minSupport <==> Supported(exemplars, key, minSupport)
  {
    TalliedIsRecount(CausesOfContext(exemplars, key), UnknownCause);
    TalliedIsEmptyExactly(CausesOfContext(exemplars, key));
  }

  /** The first key that passes a test, or past the last when none does. */
  function FirstKey(keys: seq<seq<string>>, test: seq<string> -> bool): (r: nat)
    ensures r <= |keys|
    ensures r < |keys| ==> test(keys[r])
    ensures forall k | 0 <= k < r :: !test(keys[k])
  {
    if keys == [] || test(keys[0]) then 0 else FirstKey(keys[1..], test) + 1
  }

  /** The first key with support, or past the last when none has it. */
  function FirstSupported(exemplars: seq<Exemplar>, keys: seq<seq<string>>, minSupport: int): (r: nat)
    ensures r <= |keys|
    ensures r < |keys| ==> Supported(exemplars, keys[r], minSupport)
    ensures forall k | 0 <= k < r :: !Supported(exemplars, keys[k], minSupport)
  {
    var test := (key: seq<string>) => Supported(exemplars, key, minSupport);
    var r := FirstKey(keys, test);
    assert forall k | 0 <= k < r :: !test(keys[k]);
    r
  }

  lemma {:induction false} BackoffStopsAt(exemplars: seq<Exemplar>, keys: seq<seq<string>>, minSupport: int, r: nat)
    requires (forall k | 0 <= k < |keys| :: keys[k] != []) && r <= |keys|
    requires forall k | 0 <= k < r :: !Supported(exemplars, keys[k], minSupport)
    requires r < |keys| ==> Supported(exemplars, keys[r], minSupport)
    ensures PriorFrom(exemplars, keys, minSupport).1 == (if r < |keys| then keys[r][0] else GLOBAL)
    ensures Pool(exemplars, keys, minSupport) ==
            if r < |keys| then CausesOfContext(exemplars, keys[r]) else Causes(exemplars)
  {
    if keys != [] {
      SupportIsCounted(exemplars, keys[0], minSupport);
      if r > 0 {
        assert !Supported(exemplars, keys[0], minSupport);
        assert r < |keys| ==> keys[1..][r - 1] == keys[r];
        BackoffStopsAt(exemplars, keys[1..], minSupport, r - 1);
      }
    }
  }

  /** Backoff stops at the first key with support. */
  lemma BackoffStopsFirst(exemplars: seq<Exemplar>, keys: seq<seq<string>>, minSupport: int)
    requires forall k | 0 <= k < |keys| :: keys[k] != []
    ensures var r := FirstSupported(exemplars, keys, minSupport);
            && PriorFrom(exemplars, keys, minSupport).1 == (if r < |keys| then keys[r][0] else GLOBAL)
            && Pool(exemplars, keys, minSupport) ==
               if r < |keys| then CausesOfContext(exemplars, keys[r]) else Causes(exemplars)
  {
    BackoffStopsAt(exemplars, keys, minSupport, FirstSupported(exemplars, keys, minSupport));
  }

  /** Backoff answers from level `i` of a context exactly when that one has support and no more
      specific one does, and from the whole history exactly when none has. */
  lemma BackoffStopsExactly(exemplars: seq<Exemplar>, surface: string, rail: string, step: string, source: string, code: string,
                            minSupport: int, i: nat)
    requires i < 5
    ensures var keys := ContextKeys(surface, rail, step, source, code);
            var level, pool := PriorFrom(exemplars, keys, minSupport).1, Pool(exemplars, keys, minSupport);
            && (level == keys[i][0] <==>
                  Supported(exemplars, keys[i], minSupport) && forall k | 0 <= k < i :: !Supported(exemplars, keys[k], minSupport))
            && (level == keys[i][0] ==> pool == CausesOfContext(exemplars, keys[i]))
            && (level == GLOBAL <==> forall k | 0 <= k < 5 :: !Supported(exemplars, keys[k], minSupport))
            && (level == GLOBAL ==> pool == Causes(exemplars))
  {
    var keys := ContextKeys(surface, rail, step, source, code);
    BackoffStopsFirst(exemplars, keys, minSupport);
    LevelsDiffer(surface, rail, step, source, code);
  }

  lemma LevelsDiffer(surface: string, rail: string, step: string, source: string, code: string)
    ensures var keys := ContextKeys(surface, rail, step, source, code);
            (forall i, j | 0 <= i < j < 5 :: keys[i][0] != keys[j][0]) && forall i | 0 <= i < 5 :: keys[i][0] != GLOBAL
  {
    var names := ["full", "no_code", "surface_rail_step", "surface_rail", "surface", GLOBAL];
    assert |names[0]| == 4 && |names[1]| == 7 && |names[2]| == 17 && |names[3]| == 12 && |names[5]| == 6;
    assert names[4][0] == 's' && names[1][0] == 'n';
    assert forall i, j | 0 <= i < j < 6 :: names[i] != names[j];
    assert forall i | 0 <= i < 5 :: ContextKeys(surface, rail, step, source, code)[i][0] == names[i];
  }

  lemma {:induction false} PoolIsNotEmpty(exemplars: seq<Exemplar>, keys: seq<seq<string>>, minSupport: int)
    requires exemplars != []
    ensures Pool(exemplars, keys, minSupport) != []
  {
    if keys != [] {
      PoolIsNotEmpty(exemplars, keys[1..], minSupport);
    }
  }

  /** What the ranked entries weigh together. */
  function Weight(weigh: ((RootCause, nat)) -> nat, counts: Counter): nat {
    if counts == [] then 0 else Weight(weigh, counts[..|counts| - 1]) + weigh(counts[|counts| - 1])
  }

  /** A mass that grows entry by entry, in an additive measure, is that of the whole weight. */
  lemma {:induction false} MassIsOfTheWeight(mass: Counter -> real, part: nat -> real, weigh: ((RootCause, nat)) -> nat, ranked: Counter)
    requires mass([]) == part(0)
    requires forall r: Counter, e :: mass(r + [e]) == mass(r) + part(weigh(e))
    requires forall a: nat, b: nat :: part(a + b) == part(a) + part(b)
    ensures mass(ranked) == part(Weight(weigh, ranked))
  {
    if ranked != [] {
      var before, last := ranked[..|ranked| - 1], ranked[|ranked| - 1];
      assert ranked == before + [last];
      MassIsOfTheWeight(mass, part, weigh, before);
      assert part(Weight(weigh, before) + weigh(last)) == part(Weight(weigh, before)) + part(weigh(last));
    }
  }

  function CountOf(e: (RootCause, nat)): nat {
    e.1
  }

  lemma {:induction false} WeightOfCounts(counts: Counter)
    ensures Weight(CountOf, counts) == Sum(counts)
  {
    if counts != [] {
      var before, last := counts[..|counts| - 1], counts[|counts| - 1];
      assert counts == before + [last];
      WeightOfCounts(before);
      SumSplits(before, last);
    }
  }

  lemma {:induction false} SumSplits(counts: Counter, e: (RootCause, nat))
    ensures Sum(counts + [e]) == Sum(counts) + e.1
  {
    if counts == [] {
      assert counts + [e] == [e];
      assert [e][1..] == [];
    } else {
      assert (counts + [e])[1..] == counts[1..] + [e];
      SumSplits(counts[1..], e);
    }
  }

  lemma SharesAppend(ranked: Counter, e: (RootCause, nat), total: nat)
    requires total > 0
    ensures Shares(ranked + [e], total) == Shares(ranked, total) + [(e.0, Ratio(e.1, total))]
  {
  }

  lemma MassAppend(d: Distribution, e: (RootCause, real))
    ensures Mass(d + [e]) == Mass(d) + e.1
  {
    assert (d + [e])[..|d|] == d;
  }

  lemma AddRatios(a: nat, b: nat, total: nat)
    requires total > 0
    ensures Ratio(a + b, total) == Ratio(a, total) + Ratio(b, total)
  {
  }

  lemma MassOfShares(ranked: Counter, total: nat)
    requires total > 0
    ensures Mass(Shares(ranked, total)) == Ratio(Sum(ranked), total)
  {
    var mass := (r: Counter) => Mass(Shares(r, total));
    var part := (n: nat) => Ratio(n, total);
    assert Shares([], total) == [];
    forall r: Counter, e ensures mass(r + [e]) == mass(r) + part(CountOf(e)) {
      SharesAppend(r, e, total);
      MassAppend(Shares(r, total), (e.0, Ratio(e.1, total)));
    }
    forall a: nat, b: nat ensures part(a + b) == part(a) + part(b) {
      AddRatios(a, b, total);
    }
    MassIsOfTheWeight(mass, part, CountOf, ranked);
    WeightOfCounts(ranked);
  }

  /** The shares of a counted pool: its causes, each with its frequency, heaviest first. */
  function PoolShares(pool: seq<RootCause>): Distribution {
    Shares(MostCommon(Tallied(pool)), Sum(Tallied(pool)))
  }

  lemma ShareAt(pool: seq<RootCause>, i: nat)
    requires i < |PoolShares(pool)|
    ensures pool != []
    ensures i < |MostCommon(Tallied(pool))| && PoolShares(pool)[i].0 == MostCommon(Tallied(pool))[i].0
    ensures PoolShares(pool)[i].1 == Ratio(MostCommon(Tallied(pool))[i].1, |pool|)
    ensures multiset(pool)[PoolShares(pool)[i].0] == MostCommon(Tallied(pool))[i].1
  {
    var counts := Tallied(pool);
    RankedEntries(counts);
    TalliedIsEmptyExactly(pool);
    TalliedListsOnce(pool);
    var e := MostCommon(counts)[i];
    assert e in MostCommon(counts);
    ListedCount(counts, e);
    TalliedIsRecount(pool, e.0);
  }

  /** What tops the shares of a pool is in it, with its frequency there. */
  lemma TopOfPool(pool: seq<RootCause>)
    requires pool != []
    ensures PoolShares(pool) != []
    ensures PoolShares(pool)[0].0 in pool
    ensures PoolShares(pool)[0].1 == Ratio(multiset(pool)[PoolShares(pool)[0].0], |pool|)
  {
    TalliedIsEmptyExactly(pool);
    RankedEntries(Tallied(pool));
    TalliedListsOnce(pool);
    ShareAt(pool, 0);
    var first := MostCommon(Tallied(pool))[0];
    assert first in MostCommon(Tallied(pool));
    assert PoolShares(pool)[0].0 in multiset(pool);
  }

  lemma PoolSharesSumToOne(pool: seq<RootCause>)
    requires pool != []
    ensures Mass(PoolShares(pool)) == 1.0
  {
    var ranked := MostCommon(Tallied(pool));
    assert Sum(ranked) == Sum(Tallied(pool)) == |pool| by {
      TalliedIsRecount(pool, UnknownCause);
      SumOfRanked(Tallied(pool));
    }
    MassOfShares(ranked, |pool|);
    WholeOverWhole(|pool|);
  }

  lemma PoolSharesDescend(pool: seq<RootCause>, i: nat, j: nat)
    requires i < j < |PoolShares(pool)|
    ensures PoolShares(pool)[i].1 >= PoolShares(pool)[j].1
  {
    ShareAt(pool, i);
    ShareAt(pool, j);
    RankedEntries(Tallied(pool));
    MoreIsPurer(MostCommon(Tallied(pool))[j].1, MostCommon(Tallied(pool))[i].1, |pool|);
  }

  lemma PoolSharesCover(pool: seq<RootCause>, c: RootCause)
    requires c in pool
    ensures exists e <- PoolShares(pool) :: e.0 == c
  {
    var counts := Tallied(pool);
    TalliedIsRecount(pool, c);
    CountedIsListed(counts, c);
    var e :| e in counts && e.0 == c;
    RankedEntries(counts);
    assert e in MostCommon(counts);
    var i :| 0 <= i < |MostCommon(counts)| && MostCommon(counts)[i] == e;
    assert PoolShares(pool)[i].0 == c;
  }

  /** For any history but the empty one the prior is a distribution: heaviest first, each
      cause's share its frequency in the pool, summing to one. */
  lemma PriorIsDistribution(exemplars: seq<Exemplar>, keys: seq<seq<string>>, minSupport: int)
    requires exemplars != [] && forall i | 0 <= i < |keys| :: keys[i] != []
    ensures var d, pool := PriorFrom(exemplars, keys, minSupport).0, Pool(exemplars, keys, minSupport);
            && pool != []
            && Mass(d) == 1.0
            && (forall i, j | 0 <= i < j < |d| :: d[i].1 >= d[j].1)
            && (forall e <- d :: e.1 == Ratio(multiset(pool)[e.0], |pool|))
            && (forall c <- pool :: exists e <- d :: e.0 == c)
  {
    var pool := Pool(exemplars, keys, minSupport);
    PriorComesFromPool(exemplars, keys, minSupport);
    PoolIsNotEmpty(exemplars, keys, minSupport);
    PoolSharesSumToOne(pool);
    var d := PriorFrom(exemplars, keys, minSupport).0;
    assert d == PoolShares(pool);
    forall i, j | 0 <= i < j < |d| ensures d[i].1 >= d[j].1 {
      PoolSharesDescend(pool, i, j);
    }
    forall e <- d ensures e.1 == Ratio(multiset(pool)[e.0], |pool|) {
      var i :| 0 <= i < |d| && d[i] == e;
      ShareAt(pool, i);
    }
    forall c <- pool ensures exists e <- d :: e.0 == c {
      PoolSharesCover(pool, c);
    }
  }

  lemma MoreIsPurer(a: nat, b: nat, total: nat)
    requires a <= b && total > 0
    ensures Ratio(a, total) <= Ratio(b, total)
  {
  }

  /* ----- the risk left in play ----- */

  lemma {:induction false} RiskyIsForbidden(d: Distribution)
    ensures forall e :: e in Risky(d) <==> e in d && e.0 in NEVER_RETRY
  {
    if d != [] {
      RiskyIsForbidden(d[..|d| - 1]);
      assert d == d[..|d| - 1] + [d[|d| - 1]];
    }
  }

  /** A hypothesis is named exactly when causes that must never be retried are in the
      distribution and together weigh enough; it is then the heaviest of them. */
  lemma RiskNamedExactly(d: Distribution, minMass: real)
    ensures RiskiestAlternative(d, minMass).Some? <==>
            (exists e <- d :: e.0 in NEVER_RETRY) && Mass(Risky(d)) >= minMass
    ensures RiskiestAlternative(d, minMass).Some? ==>
              var c := RiskiestAlternative(d, minMass).value;
              c in NEVER_RETRY && exists e <- d :: e.0 == c && forall f <- d :: f.0 in NEVER_RETRY ==> f.1 <= e.1
  {
    RiskyIsForbidden(d);
    if Risky(d) == [] {
      assert forall e <- d :: e.0 in NEVER_RETRY ==> e in Risky(d);
    } else {
      assert Risky(d)[0] in Risky(d);
      var h := Heaviest(Risky(d));
      assert h in d && forall f <- d :: f.0 in NEVER_RETRY ==> f in Risky(d);
    }
  }

  /** Of causes as heavy, the risk named is the first in the distribution. */
  lemma {:induction false} HeaviestIsFirst(d: Distribution) returns (i: nat)
    requires d != []
    ensures i < |d| && Heaviest(d) == d[i]
    ensures forall j | 0 <= j < |d| :: d[j].1 <= d[i].1
    ensures forall j | 0 <= j < i :: d[j].1 < d[i].1
  {
    var n := |d| - 1;
    if n == 0 {
      i := 0;
    } else {
      i := HeaviestIsFirst(d[..n]);
      if d[i].1 < d[n].1 {
        i := n;
      }
    }
  }

  /** How many of the causes must never be retried. */
  function Forbidden(causes: seq<RootCause>): nat {
    if causes == [] then 0
    else Forbidden(causes[..|causes| - 1]) + (if causes[|causes| - 1] in NEVER_RETRY then 1 else 0)
  }

  function ForbiddenIn(counts: Counter): nat {
    if counts == [] then 0 else (if counts[0].0 in NEVER_RETRY then counts[0].1 else 0) + ForbiddenIn(counts[1..])
  }

  lemma {:induction false} BumpForbidden(counts: Counter, cause: RootCause)
    ensures ForbiddenIn(Bump(counts, cause)) == ForbiddenIn(counts) + (if cause in NEVER_RETRY then 1 else 0)
  {
    if counts != [] && counts[0].0 != cause {
      BumpForbidden(counts[1..], cause);
    }
  }

  lemma {:induction false} TalliedForbidden(causes: seq<RootCause>)
    ensures ForbiddenIn(Tallied(causes)) == Forbidden(causes)
  {
    if causes != [] {
      TalliedForbidden(causes[..|causes| - 1]);
      BumpForbidden(Tallied(causes[..|causes| - 1]), causes[|causes| - 1]);
    }
  }

  lemma {:induction false} ForbiddenOfInsert(x: (RootCause, nat), ys: Counter)
    ensures ForbiddenIn(Insert(x, ys, MoreCommon)) == (if x.0 in NEVER_RETRY then x.1 else 0) + ForbiddenIn(ys)
  {
    if ys != [] && MoreCommon(ys[0], x) {
      ForbiddenOfInsert(x, ys[1..]);
    }
  }

  lemma {:induction false} ForbiddenOfRanked(counts: Counter)
    ensures ForbiddenIn(MostCommon(counts)) == ForbiddenIn(counts)
  {
    if counts != [] {
      ForbiddenOfRanked(counts[1..]);
      ForbiddenOfInsert(counts[0], MostCommon(counts[1..]));
    }
  }

  lemma {:induction false} ForbiddenSplits(counts: Counter, e: (RootCause, nat))
    ensures ForbiddenIn(counts + [e]) == ForbiddenIn(counts) + (if e.0 in NEVER_RETRY then e.1 else 0)
  {
    if counts == [] {
      assert counts + [e] == [e];
      assert [e][1..] == [];
    } else {
      assert (counts + [e])[1..] == counts[1..] + [e];
      ForbiddenSplits(counts[1..], e);
    }
  }

  lemma RiskyMassAppend(d: Distribution, e: (RootCause, real))
    ensures Mass(Risky(d + [e])) == Mass(Risky(d)) + (if e.0 in NEVER_RETRY then e.1 else 0.0)
  {
    assert (d + [e])[..|d|] == d;
    MassAppend(Risky(d), e);
    assert Risky(d) + [] == Risky(d);
  }

  lemma RiskyShareAppend(ranked: Counter, e: (RootCause, nat), total: nat)
    requires total > 0
    ensures Mass(Risky(Shares(ranked + [e], total))) ==
            Mass(Risky(Shares(ranked, total))) + Ratio(ForbiddenPart(e), total)
  {
    SharesAppend(ranked, e, total);
    RiskyMassAppend(Shares(ranked, total), (e.0, Ratio(e.1, total)));
  }

  /** What one ranked entry adds to the forbidden count. */
  function ForbiddenPart(e: (RootCause, nat)): nat {
    if e.0 in NEVER_RETRY then e.1 else 0
  }

  lemma {:induction false} WeightOfForbidden(counts: Counter)
    ensures Weight(ForbiddenPart, counts) == ForbiddenIn(counts)
  {
    if counts != [] {
      var before, last := counts[..|counts| - 1], counts[|counts| - 1];
      assert counts == before + [last];
      WeightOfForbidden(before);
      ForbiddenSplits(before, last);
    }
  }

  lemma RiskyMassOfShares(ranked: Counter, total: nat)
    requires total > 0
    ensures Mass(Risky(Shares(ranked, total))) == Ratio(ForbiddenIn(ranked), total)
  {
    var mass := (r: Counter) => Mass(Risky(Shares(r, total)));
    var part := (n: nat) => Ratio(n, total);
    assert Shares([], total) == [];
    forall r: Counter, e ensures mass(r + [e]) == mass(r) + part(ForbiddenPart(e)) {
      RiskyShareAppend(r, e, total);
    }
    forall a: nat, b: nat ensures part(a + b) == part(a) + part(b) {
      AddRatios(a, b, total);
    }
    MassIsOfTheWeight(mass, part, ForbiddenPart, ranked);
    WeightOfForbidden(ranked);
  }

  /** The mass tested against the bar is the share of the pool that must never be retried. */
  lemma RiskyMassIsFrequency(exemplars: seq<Exemplar>, keys: seq<seq<string>>, minSupport: int)
    requires exemplars != [] && forall i | 0 <= i < |keys| :: keys[i] != []
    ensures var d, pool := PriorFrom(exemplars, keys, minSupport).0, Pool(exemplars, keys, minSupport);
            pool != [] && Mass(Risky(d)) == Ratio(Forbidden(pool), |pool|)
  {
    var pool := Pool(exemplars, keys, minSupport);
    PriorComesFromPool(exemplars, keys, minSupport);
    PoolIsNotEmpty(exemplars, keys, minSupport);
    TalliedIsRecount(pool, UnknownCause);
    TalliedForbidden(pool);
    ForbiddenOfRanked(Tallied(pool));
    RiskyMassOfShares(MostCommon(Tallied(pool)), |pool|);
  }

  /* ----- what the order of the history decides ----- */

  /** Whether an exemplar is in the pool the prior is drawn from. */
  function Pooled(exemplars: seq<Exemplar>, keys: seq<seq<string>>, minSupport: int): Exemplar -> bool {
    var r := FirstSupported(exemplars, keys, minSupport);
    (x: Exemplar) => r >= |keys| || keys[r] in KeysOf(x)
  }

  lemma {:induction false} ContextIsPicked(exemplars: seq<Exemplar>, key: seq<string>, test: Exemplar -> bool)
    requires forall x :: test(x) <==> key in KeysOf(x)
    ensures CausesOfContext(exemplars, key) == Picked(test, exemplars)
  {
    if exemplars != [] {
      ContextIsPicked(exemplars[..|exemplars| - 1], key, test);
    }
  }

  lemma {:induction false} AllArePicked(exemplars: seq<Exemplar>, test: Exemplar -> bool)
    requires forall x :: test(x)
    ensures Causes(exemplars) == Picked(test, exemplars)
  {
    if exemplars != [] {
      AllArePicked(exemplars[..|exemplars| - 1], test);
    }
  }

  lemma PoolIsPicked(exemplars: seq<Exemplar>, keys: seq<seq<string>>, minSupport: int)
    requires forall k | 0 <= k < |keys| :: keys[k] != []
    ensures Pool(exemplars, keys, minSupport) == Picked(Pooled(exemplars, keys, minSupport), exemplars)
  {
    var r, test := FirstSupported(exemplars, keys, minSupport), Pooled(exemplars, keys, minSupport);
    BackoffStopsFirst(exemplars, keys, minSupport);
    if r < |keys| {
      ContextIsPicked(exemplars, keys[r], test);
    } else {
      AllArePicked(exemplars, test);
    }
  }

  lemma SupportForgetsOrder(xs: seq<Exemplar>, ys: seq<Exemplar>, key: seq<string>, minSupport: int)
    requires multiset(xs) == multiset(ys)
    ensures Supported(xs, key, minSupport) <==> Supported(ys, key, minSupport)
  {
    var test := (x: Exemplar) => key in KeysOf(x);
    ContextIsPicked(xs, key, test);
    ContextIsPicked(ys, key, test);
    PickedForgetsOrder(test, xs, ys);
    assert |CausesOfContext(xs, key)| == |multiset(CausesOfContext(xs, key))| == |CausesOfContext(ys, key)|;
  }

  /** Backoff stops at the same level, on the same causes as often, in any order. */
  lemma BackoffForgetsOrder(xs: seq<Exemplar>, ys: seq<Exemplar>, keys: seq<seq<string>>, minSupport: int)
    requires multiset(xs) == multiset(ys)
    ensures FirstSupported(xs, keys, minSupport) == FirstSupported(ys, keys, minSupport)
  {
    var r, s := FirstSupported(xs, keys, minSupport), FirstSupported(ys, keys, minSupport);
    forall k | 0 <= k < |keys| ensures Supported(xs, keys[k], minSupport) <==> Supported(ys, keys[k], minSupport) {
      SupportForgetsOrder(xs, ys, keys[k], minSupport);
    }
    assert r < |keys| ==> Supported(ys, keys[r], minSupport);
    assert s < |keys| ==> Supported(xs, keys[s], minSupport);
  }

  lemma PoolForgetsOrder(xs: seq<Exemplar>, ys: seq<Exemplar>, keys: seq<seq<string>>, minSupport: int)
    requires multiset(xs) == multiset(ys) && forall k | 0 <= k < |keys| :: keys[k] != []
    ensures multiset(Pool(xs, keys, minSupport)) == multiset(Pool(ys, keys, minSupport))
    ensures PriorFrom(xs, keys, minSupport).1 == PriorFrom(ys, keys, minSupport).1
  {
    BackoffForgetsOrder(xs, ys, keys, minSupport);
    BackoffStopsFirst(xs, keys, minSupport);
    BackoffStopsFirst(ys, keys, minSupport);
    PoolIsPicked(xs, keys, minSupport);
    PoolIsPicked(ys, keys, minSupport);
    PickedForgetsOrder(Pooled(xs, keys, minSupport), xs, ys);
  }

  lemma {:induction false} ForbiddenForgetsOrder(a: seq<RootCause>, b: seq<RootCause>)
    requires multiset(a) == multiset(b)
    ensures Forbidden(a) == Forbidden(b)
    decreases |a|
  {
    assert |a| == |multiset(a)| == |multiset(b)| == |b|;
    if a != [] {
      var before, c := a[..|a| - 1], a[|a| - 1];
      assert a == before + [c];
      assert c in multiset(b);
      var j :| 0 <= j < |b| && b[j] == c;
      assert b == b[..j] + [c] + b[j + 1..];
      assert multiset(before) == multiset(a) - multiset{c} == multiset(b[..j] + b[j + 1..]);
      ForbiddenForgetsOrder(before, b[..j] + b[j + 1..]);
      ForbiddenAround(b[..j], c, b[j + 1..]);
    }
  }

  lemma {:induction false} ForbiddenAppended(a: seq<RootCause>, b: seq<RootCause>)
    ensures Forbidden(a + b) == Forbidden(a) + Forbidden(b)
  {
    if b == [] {
      assert a + b == a;
    } else {
      assert (a + b)[..|a + b| - 1] == a + b[..|b| - 1];
      ForbiddenAppended(a, b[..|b| - 1]);
    }
  }

  lemma ForbiddenAround(a: seq<RootCause>, c: RootCause, b: seq<RootCause>)
    ensures Forbidden(a + [c] + b) == Forbidden(a + b) + (if c in NEVER_RETRY then 1 else 0)
  {
    ForbiddenAppended(a + [c], b);
    ForbiddenAppended(a, [c]);
    ForbiddenAppended(a, b);
    assert [c][..0] == [];
  }

  lemma BumpKeepsFirst(counts: Counter, cause: RootCause)
    requires counts != []
    ensures Bump(counts, cause) != [] && Bump(counts, cause)[0].0 == counts[0].0
  {
  }

  lemma {:induction false} FirstIsTalliedFirst(causes: seq<RootCause>)
    requires causes != []
    ensures Tallied(causes) != [] && Tallied(causes)[0].0 == causes[0]
  {
    if |causes| > 1 {
      FirstIsTalliedFirst(causes[..|causes| - 1]);
      BumpKeepsFirst(Tallied(causes[..|causes| - 1]), causes[|causes| - 1]);
    } else {
      assert causes[..0] == [] && Tallied([]) == [];
    }
  }

  lemma FirstRanksFirst(counts: Counter)
    requires counts != [] && forall e <- counts :: e.1 <= counts[0].1
    ensures MostCommon(counts)[0] == counts[0]
  {
    var rest := MostCommon(counts[1..]);
    RankedEntries(counts[1..]);
    assert rest != [] ==> rest[0] in rest && rest[0] in counts[1..];
    assert counts == [counts[0]] + counts[1..];
  }

  /** Of the commonest causes of a pool, the one met first tops its shares. */
  lemma FirstOfTheCommonest(pool: seq<RootCause>)
    requires pool != [] && forall c :: multiset(pool)[c] <= multiset(pool)[pool[0]]
    ensures PoolShares(pool) != [] && PoolShares(pool)[0].0 == pool[0]
  {
    var counts := Tallied(pool);
    FirstIsTalliedFirst(pool);
    TalliedListsOnce(pool);
    forall e <- counts ensures e.1 <= counts[0].1 {
      ListedCount(counts, e);
      ListedCount(counts, counts[0]);
      TalliedIsRecount(pool, e.0);
      TalliedIsRecount(pool, pool[0]);
    }
    FirstRanksFirst(counts);
    RankedEntries(counts);
  }

  /** Moved to the front, an exemplar of the pool has its cause met first. */
  lemma MovedToFront(exemplars: seq<Exemplar>, keys: seq<seq<string>>, minSupport: int, j: nat) returns (ys: seq<Exemplar>)
    requires (forall k | 0 <= k < |keys| :: keys[k] != []) && j < |exemplars|
    requires Pooled(exemplars, keys, minSupport)(exemplars[j])
    ensures multiset(ys) == multiset(exemplars)
    ensures Pool(ys, keys, minSupport) != [] && Pool(ys, keys, minSupport)[0] == exemplars[j].cause
  {
    var x, rest := exemplars[j], exemplars[..j] + exemplars[j + 1..];
    ys := [x] + rest;
    assert exemplars == exemplars[..j] + [x] + exemplars[j + 1..];
    BackoffForgetsOrder(exemplars, ys, keys, minSupport);
    PoolIsPicked(ys, keys, minSupport);
    var test := Pooled(ys, keys, minSupport);
    PickedAppended(test, [x], rest);
    PickedOne(test, x);
  }

  /** A cause as common as any other in the pool tops its shares in some order of the history. */
  lemma ATieCanTop(exemplars: seq<Exemplar>, keys: seq<seq<string>>, minSupport: int, c: RootCause) returns (ys: seq<Exemplar>)
    requires forall k | 0 <= k < |keys| :: keys[k] != []
    requires var pool := Pool(exemplars, keys, minSupport);
             c in pool && forall d :: multiset(pool)[d] <= multiset(pool)[c]
    ensures multiset(ys) == multiset(exemplars)
    ensures PoolShares(Pool(ys, keys, minSupport)) != [] && PoolShares(Pool(ys, keys, minSupport))[0].0 == c
  {
    PoolIsPicked(exemplars, keys, minSupport);
    var j := PickedHasAnExemplar(Pooled(exemplars, keys, minSupport), exemplars, c);
    ys := MovedToFront(exemplars, keys, minSupport, j);
    PoolForgetsOrder(exemplars, ys, keys, minSupport);
    FirstOfTheCommonest(Pool(ys, keys, minSupport));
  }

  lemma {:induction false} PickedHasAnExemplar(test: Exemplar -> bool, exemplars: seq<Exemplar>, c: RootCause) returns (j: nat)
    requires c in Picked(test, exemplars)
    ensures j < |exemplars| && test(exemplars[j]) && exemplars[j].cause == c
  {
    var n := |exemplars| - 1;
    if test(exemplars[n]) && exemplars[n].cause == c {
      j := n;
    } else {
      j := PickedHasAnExemplar(test, exemplars[..n], c);
    }
  }
}
