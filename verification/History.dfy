/** Resolved history: counters kept by hand, and what may be concluded from them. */
module History {
  import opened Domain
  import opened Ratios
  import opened Sorting

  datatype Exemplar = Exemplar(
    description: string, code: string, source: string, step: string, surface: string, rail: string, cause: RootCause)

  /* ----- counters ----- */

  /** A counter lists its causes in the order they were first counted. */
  type Counter = seq<(RootCause, nat)>

  function Bump(counts: Counter, cause: RootCause): Counter {
    if counts == [] then [(cause, 1)]
    else if counts[0].0 == cause then [(cause, counts[0].1 + 1)] + counts[1..]
    else [counts[0]] + Bump(counts[1..], cause)
  }

  function Sum(counts: Counter): nat {
    if counts == [] then 0 else counts[0].1 + Sum(counts[1..])
  }

  /** The counter that counting these causes one by one builds. */
  function Tallied(causes: seq<RootCause>): Counter {
    if causes == [] then [] else Bump(Tallied(causes[..|causes| - 1]), causes[|causes| - 1])
  }

  predicate MoreCommon(x: (RootCause, nat), y: (RootCause, nat)) {
    x.1 > y.1
  }

  /** Most counted first; of equals, the one counted first. */
  function MostCommon(counts: Counter): Counter {
    Sort(counts, MoreCommon)
  }

  /* ----- keys ----- */

  /** Most specific first; each starts with the name of its level. */
  function ContextKeys(surface: string, rail: string, step: string, source: string, code: string): (keys: seq<seq<string>>)
    ensures |keys| == 5
  {
    [["full", surface, rail, step, source, code],
     ["no_code", surface, rail, step, source],
     ["surface_rail_step", surface, rail, step],
     ["surface_rail", surface, rail],
     ["surface", surface]]
  }

  function KeysOf(ex: Exemplar): (keys: seq<seq<string>>)
    ensures |keys| == 5
  {
    ContextKeys(ex.surface, ex.rail, ex.step, ex.source, ex.code)
  }

  /* ----- recounts over the exemplars ----- */

  /** Causes of the exemplars filed under a wording. */
  function CausesOfText(fold: string -> string, exemplars: seq<Exemplar>, text: string): seq<RootCause> {
    if exemplars == [] then []
    else
      var last := exemplars[|exemplars| - 1];
      CausesOfText(fold, exemplars[..|exemplars| - 1], text)
      + (if fold(last.description) == text then [last.cause] else [])
  }

  /** Causes of the exemplars filed under a context key. */
  function CausesOfContext(exemplars: seq<Exemplar>, key: seq<string>): seq<RootCause> {
    if exemplars == [] then []
    else
      var last := exemplars[|exemplars| - 1];
      CausesOfContext(exemplars[..|exemplars| - 1], key) + (if key in KeysOf(last) then [last.cause] else [])
  }

  function Causes(exemplars: seq<Exemplar>): seq<RootCause> {
    if exemplars == [] then []
    else Causes(exemplars[..|exemplars| - 1]) + [exemplars[|exemplars| - 1].cause]
  }

  /* ----- answers, stated over the exemplars ----- */

  function ExactOf(counts: Counter, minPurity: real): Option<(RootCause, real)> {
    if counts == [] || Sum(counts) == 0 then None
    else
      var ranked := MostCommon(counts);
      if ranked == [] then None
      else
        var purity := Ratio(ranked[0].1, Sum(counts));
        if purity >= minPurity then Some((ranked[0].0, purity)) else None
  }

  function Exact(fold: string -> string, exemplars: seq<Exemplar>, description: string, minPurity: real)
    : Option<(RootCause, real)>
  {
    ExactOf(Tallied(CausesOfText(fold, exemplars, fold(description))), minPurity)
  }

  type Distribution = seq<(RootCause, real)>

  /** Each count over the total, or over one when nothing was counted. */
  function Shares(ranked: Counter, total: nat): (d: Distribution)
    ensures |d| == |ranked|
    ensures forall i | 0 <= i < |d| :: d[i] == (ranked[i].0, Ratio(ranked[i].1, Max(1, total)))
  {
    seq(|ranked|, i requires 0 <= i < |ranked| => (ranked[i].0, Ratio(ranked[i].1, Max(1, total))))
  }

  const GLOBAL: string := "global"

  /** Backoff: the first key with enough support, else the whole history. */
  function PriorFrom(exemplars: seq<Exemplar>, keys: seq<seq<string>>, minSupport: int): (Distribution, string)
    requires forall i | 0 <= i < |keys| :: keys[i] != []
  {
    if keys == [] then
      var counts := Tallied(Causes(exemplars));
      (Shares(MostCommon(counts), Sum(counts)), GLOBAL)
    else
      var counts := Tallied(CausesOfContext(exemplars, keys[0]));
      if counts != [] && Sum(counts) >= minSupport then (Shares(MostCommon(counts), Sum(counts)), keys[0][0])
      else PriorFrom(exemplars, keys[1..], minSupport)
  }

  /** The never-retryable part of a distribution. */
  function Risky(d: Distribution): Distribution {
    if d == [] then []
    else Risky(d[..|d| - 1]) + (if d[|d| - 1].0 in NEVER_RETRY then [d[|d| - 1]] else [])
  }

  function Mass(d: Distribution): real {
    if d == [] then 0.0 else Mass(d[..|d| - 1]) + d[|d| - 1].1
  }

  /** The first of the heaviest. */
  function Heaviest(d: Distribution): (h: (RootCause, real))
    requires d != []
    ensures h in d && forall x <- d :: x.1 <= h.1
  {
    if |d| == 1 then d[0]
    else
      var h := Heaviest(d[..|d| - 1]);
      assert d == d[..|d| - 1] + [d[|d| - 1]];
      if d[|d| - 1].1 > h.1 then d[|d| - 1] else h
  }

  function RiskiestAlternative(d: Distribution, minMass: real): Option<RootCause> {
    var risky := Risky(d);
    if risky == [] || Mass(risky) < minMass then None else Some(Heaviest(risky).0)
  }

  /* ----- the index as it is kept ----- */

  ghost predicate TextIndexed(fold: string -> string, index: map<string, Counter>, exemplars: seq<Exemplar>) {
    forall k :: (if k in index then index[k] else []) == Tallied(CausesOfText(fold, exemplars, k))
  }

  ghost predicate ContextIndexed(index: map<seq<string>, Counter>, exemplars: seq<Exemplar>) {
    forall k :: (if k in index then index[k] else []) == Tallied(CausesOfContext(exemplars, k))
  }

  /** `ex` is counted under `done` and not yet under any other key. */
  ghost predicate PartlyCounted(index: map<seq<string>, Counter>, before: seq<Exemplar>, ex: Exemplar, done: seq<seq<string>>) {
    forall k :: (if k in index then index[k] else []) ==
      if k in done then Bump(Tallied(CausesOfContext(before, k)), ex.cause)
      else Tallied(CausesOfContext(before, k))
  }

  class ResolvedHistory {
    const fold: string -> string
    var exemplars: seq<Exemplar>
    var byText: map<string, Counter>
    var byContext: map<seq<string>, Counter>
    var total: Counter

    /** Every counter equals a recount over the exemplars. */
    ghost predicate Valid()
      reads this
    {
      && TextIndexed(fold, byText, exemplars)
      && ContextIndexed(byContext, exemplars)
      && total == Tallied(Causes(exemplars))
    }

    constructor (fold: string -> string)
      ensures Valid() && exemplars == [] && this.fold == fold
    {
      this.fold := fold;
      exemplars, byText, byContext, total := [], map[], map[], [];
    }

    method Add(ex: Exemplar)
      requires Valid()
      modifies this
      ensures Valid() && exemplars == old(exemplars) + [ex]
    {
      CountText(exemplars, ex);
      total := Bump(total, ex.cause);
      CountContexts(exemplars, ex);
      GrowAll(exemplars, ex);
      exemplars := exemplars + [ex];
    }

    /** One more under the wording. */
    method CountText(ghost before: seq<Exemplar>, ex: Exemplar)
      requires TextIndexed(fold, byText, before)
      modifies this`byText
      ensures TextIndexed(fold, byText, before + [ex])
    {
      var text := fold(ex.description);
      byText := byText[text := Bump(if text in byText then byText[text] else [], ex.cause)];
      GrowText(fold, before, ex);
    }

    /** One more under each of the five context keys. */
    method CountContexts(ghost before: seq<Exemplar>, ex: Exemplar)
      requires ContextIndexed(byContext, before)
      modifies this`byContext
      ensures ContextIndexed(byContext, before + [ex])
    {
      var keys := KeysOf(ex);
      KeysDiffer(ex.surface, ex.rail, ex.step, ex.source, ex.code);
      for i := 0 to |keys|
        invariant PartlyCounted(byContext, before, ex, keys[..i])
      {
        var key := keys[i];
        assert key !in keys[..i];
        assert keys[..i + 1] == keys[..i] + [key];
        byContext := byContext[key := Bump(if key in byContext then byContext[key] else [], ex.cause)];
      }
      assert keys[..|keys|] == keys;
      GrowContext(before, ex);
    }

    method ExactMatch(description: string, minPurity: real) returns (r: Option<(RootCause, real)>)
      requires Valid()
      ensures r == Exact(fold, exemplars, description, minPurity)
    {
      var text := fold(description);
      return ExactOf(if text in byText then byText[text] else [], minPurity);
    }

    method Prior(surface: string, rail: string, step: string, source: string, code: string, minSupport: int)
      returns (d: Distribution, level: string)
      requires Valid()
      ensures (d, level) == PriorFrom(exemplars, ContextKeys(surface, rail, step, source, code), minSupport)
    {
      var keys := ContextKeys(surface, rail, step, source, code);
      for i := 0 to |keys|
        invariant PriorFrom(exemplars, keys, minSupport) == PriorFrom(exemplars, keys[i..], minSupport)
      {
        var counts := if keys[i] in byContext then byContext[keys[i]] else [];
        if counts != [] && Sum(counts) >= minSupport {
          return Shares(MostCommon(counts), Sum(counts)), keys[i][0];
        }
      }
      return Shares(MostCommon(total), Sum(total)), GLOBAL;
    }

    /** Seen before, and found to mean nothing. */
    method KnownAmbiguous(description: string) returns (r: bool)
      requires Valid()
      ensures r <==> CausesOfText(fold, exemplars, fold(description)) != [] && Exact(fold, exemplars, description, 0.8).None?
    {
      var text := fold(description);
      var e := ExactMatch(description, 0.8);
      TalliedIsEmptyExactly(CausesOfText(fold, exemplars, text));
      return text in byText && byText[text] != [] && e.None?;
    }
  }

  lemma KeysDiffer(surface: string, rail: string, step: string, source: string, code: string)
    ensures var keys := ContextKeys(surface, rail, step, source, code);
            forall i, j | 0 <= i < j < 5 :: keys[i] != keys[j]
  {
    var keys := ContextKeys(surface, rail, step, source, code);
    forall i, j | 0 <= i < j < 5 ensures keys[i] != keys[j] {
      assert |keys[i]| == 6 - i && |keys[j]| == 6 - j;
    }
  }

  lemma GrowText(fold: string -> string, before: seq<Exemplar>, ex: Exemplar)
    ensures forall k :: Tallied(CausesOfText(fold, before + [ex], k)) ==
                        if k == fold(ex.description) then Bump(Tallied(CausesOfText(fold, before, k)), ex.cause)
                        else Tallied(CausesOfText(fold, before, k))
  {
    var after := before + [ex];
    assert after[..|after| - 1] == before;
    forall k ensures Tallied(CausesOfText(fold, after, k)) ==
                     if k == fold(ex.description) then Bump(Tallied(CausesOfText(fold, before, k)), ex.cause)
                     else Tallied(CausesOfText(fold, before, k))
    {
      TalliedGrows(CausesOfText(fold, before, k), ex.cause);
      assert CausesOfText(fold, before, k) + [] == CausesOfText(fold, before, k);
    }
  }

  lemma GrowContext(before: seq<Exemplar>, ex: Exemplar)
    ensures forall k :: Tallied(CausesOfContext(before + [ex], k)) ==
                        if k in KeysOf(ex) then Bump(Tallied(CausesOfContext(before, k)), ex.cause)
                        else Tallied(CausesOfContext(before, k))
  {
    var after := before + [ex];
    assert after[..|after| - 1] == before;
    forall k ensures Tallied(CausesOfContext(after, k)) ==
                     if k in KeysOf(ex) then Bump(Tallied(CausesOfContext(before, k)), ex.cause)
                     else Tallied(CausesOfContext(before, k))
    {
      TalliedGrows(CausesOfContext(before, k), ex.cause);
      assert CausesOfContext(before, k) + [] == CausesOfContext(before, k);
    }
  }

  lemma GrowAll(before: seq<Exemplar>, ex: Exemplar)
    ensures Tallied(Causes(before + [ex])) == Bump(Tallied(Causes(before)), ex.cause)
  {
    var after := before + [ex];
    assert after[..|after| - 1] == before;
    TalliedGrows(Causes(before), ex.cause);
  }

  lemma TalliedGrows(causes: seq<RootCause>, cause: RootCause)
    ensures Tallied(causes + [cause]) == Bump(Tallied(causes), cause)
  {
    assert (causes + [cause])[..|causes|] == causes;
  }

  lemma TalliedIsEmptyExactly(causes: seq<RootCause>)
    ensures Tallied(causes) == [] <==> causes == []
  {
  }
}
