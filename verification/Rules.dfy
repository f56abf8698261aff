/** The rule-based diagnosis, and what it keeps a run from doing. */
module Rules {
  import opened Domain
  import opened Policy
  import opened History
  import opened Ratios
  import HistoryProperties
  import Fleet
  import Runner
  import RunnerSafety
  import RunTheorems

  function SurfaceName(s: Surface): string {
    match s
    case Payment => "payment"
    case Mandate => "mandate"
    case Receivable => "receivable"
  }

  /** What a strategy may see of a failure. */
  datatype Context = Context(
    description: string, code: string, surface: Surface, rail: string, step: string, source: string,
    issuer: string, now: Instant)

  type Reading = Option<(RootCause, real)>

  /** What the rules work with. `fold` is lower-case and strip; `codeOf` and `keywordOf` read
      the lower-cased text for a response code and for keywords. */
  datatype RulesOnly = RulesOnly(
    fold: string -> string,
    codeOf: (string, string) -> Reading,
    keywordOf: (string, string) -> Reading,
    fleet: Option<(seq<Fleet.Failure>, Fleet.Tuning)>,
    history: Option<seq<Exemplar>>)

  function Min(a: real, b: real): real {
    if b < a then b else a
  }

  /** Where in the flow it broke. */
  function FromContext(ctx: Context): (RootCause, real) {
    if ctx.surface == Receivable then (InvoiceForgotten, 0.35)
    else if ctx.surface == Mandate then (MandateInsufficient, 0.40)
    else if ctx.step == "authentication" then (AuthenticationFailed, 0.45)
    else if ctx.source == "issuer" then (InsufficientFunds, 0.30)
    else (UnknownCause, 0.20)
  }

  function KnownWording(r: RulesOnly, ctx: Context): Reading {
    if r.history.None? then None else Exact(r.fold, r.history.value, ctx.description, 0.8)
  }

  predicate IssuerSpikes(r: RulesOnly, ctx: Context) {
    r.fleet.Some? && ctx.issuer != "" && Fleet.Spikes(r.fleet.value.0, r.fleet.value.1, ctx.issuer, ctx.now)
  }

  function PriorKeys(ctx: Context): (keys: seq<seq<string>>)
    ensures forall i | 0 <= i < |keys| :: keys[i] != []
  {
    ContextKeys(SurfaceName(ctx.surface), ctx.rail, ctx.step, ctx.source, ctx.code)
  }

  function PriorOf(r: RulesOnly, ctx: Context): Distribution {
    if r.history.None? then [] else PriorFrom(r.history.value, PriorKeys(ctx), 25).0
  }

  /** The branch taken, most trusted evidence first. */
  datatype Branch = Wording | Code | Keyword | Spike | Prior | Fallback

  function BranchOf(r: RulesOnly, ctx: Context): Branch {
    if KnownWording(r, ctx).Some? then Wording
    else if r.codeOf(ctx.description, ctx.code).Some? then Code
    else if r.keywordOf(ctx.description, ctx.code).Some? then Keyword
    else if IssuerSpikes(r, ctx) then Spike
    else if PriorOf(r, ctx) != [] then Prior
    else Fallback
  }

  function Plain(reading: (RootCause, real)): Diagnosis {
    Diagnosis(reading.0, reading.1, None, None)
  }

  function FromPrior(d: Distribution): Diagnosis
    requires d != []
  {
    Diagnosis(d[0].0, Min(0.6, d[0].1), if |d| > 1 then Some(d[1].0) else None, RiskiestAlternative(d, 0.15))
  }

  function Diagnose(r: RulesOnly, ctx: Context): Diagnosis {
    match BranchOf(r, ctx)
    case Wording => var known := KnownWording(r, ctx).value; Plain((known.0, Min(0.97, known.1)))
    case Code => Plain(r.codeOf(ctx.description, ctx.code).value)
    case Keyword => Plain(r.keywordOf(ctx.description, ctx.code).value)
    case Spike => Plain((IssuerDown, 0.8))
    case Prior => FromPrior(PriorOf(r, ctx))
    case Fallback => Plain(FromContext(ctx))
  }

  /** A wording history knows is answered with its one cause, before anything else is asked,
      whatever the order history was learnt in. */
  lemma HistoryOrderDoesNotMatter(r: RulesOnly, other: RulesOnly, ctx: Context)
    requires r.history.Some? && other.history.Some? && multiset(r.history.value) == multiset(other.history.value)
    requires r.fold == other.fold && BranchOf(r, ctx) == Wording
    ensures Diagnose(other, ctx) == Diagnose(r, ctx)
  {
    HistoryProperties.ExactForgetsOrder(r.fold, r.history.value, other.history.value, ctx.description, 0.8);
  }

  /** Nothing more trusted than the traffic says anything. */
  predicate LeftToTraffic(r: RulesOnly, ctx: Context) {
    && KnownWording(r, ctx).None?
    && r.codeOf(ctx.description, ctx.code).None?
    && r.keywordOf(ctx.description, ctx.code).None?
  }

  /** Where it broke names this cause, this sure. */
  predicate PlaceSuggests(ctx: Context, cause: RootCause, confidence: real) {
    var authenticating := ctx.surface == Payment && ctx.step == "authentication";
    match cause
    case InvoiceForgotten => ctx.surface == Receivable && confidence == 0.35
    case MandateInsufficient => ctx.surface == Mandate && confidence == 0.4
    case AuthenticationFailed => authenticating && confidence == 0.45
    case InsufficientFunds => ctx.surface == Payment && !authenticating && ctx.source == "issuer" && confidence == 0.3
    case UnknownCause => ctx.surface == Payment && !authenticating && ctx.source != "issuer" && confidence == 0.2
    case _ => false
  }

  /** A wording is known exactly as the cause of four fifths or more of the exemplars that
      read alike, and as surely as that is their share. */
  lemma KnownExactly(r: RulesOnly, ctx: Context, c: RootCause, p: real)
    ensures KnownWording(r, ctx) == Some((c, p)) <==>
            && r.history.Some?
            && var causes := CausesOfText(r.fold, r.history.value, r.fold(ctx.description));
            causes != [] && p == Ratio(multiset(causes)[c], |causes|) >= 0.8
  {
    if r.history.Some? {
      HistoryProperties.ExactIsTheMajority(CausesOfText(r.fold, r.history.value, r.fold(ctx.description)), 0.8, c, p);
    }
  }

  /** A known wording answers before a response code, a code before a keyword, a keyword before
      the traffic, the traffic before base rates, and where it broke comes last. Each answers
      alone, base rates apart: no other cause stays in play. A known wording is never trusted
      beyond 0.97. */
  lemma TheMostTrustedAnswers(r: RulesOnly, ctx: Context)
    ensures var d, known := Diagnose(r, ctx), KnownWording(r, ctx);
            var code, keyword := r.codeOf(ctx.description, ctx.code), r.keywordOf(ctx.description, ctx.code);
            var spikes :=
              ctx.issuer != "" && r.fleet.Some? && Fleet.Spikes(r.fleet.value.0, r.fleet.value.1, ctx.issuer, ctx.now);
            && (known.Some? ==> d.rootCause == known.value.0
                                && d.confidence == if known.value.1 <= 0.97 then known.value.1 else 0.97)
            && (known.None? && code.Some? ==> (d.rootCause, d.confidence) == code.value)
            && (known.None? && code.None? && keyword.Some? ==> (d.rootCause, d.confidence) == keyword.value)
            && (LeftToTraffic(r, ctx) && spikes ==> d.rootCause == IssuerDown && d.confidence == 0.8)
            && (LeftToTraffic(r, ctx) && !spikes && PriorOf(r, ctx) == [] ==> PlaceSuggests(ctx, d.rootCause, d.confidence))
            && (BranchOf(r, ctx) == Prior <==> LeftToTraffic(r, ctx) && !spikes && PriorOf(r, ctx) != [])
            && (BranchOf(r, ctx) != Prior ==> d.alternativeCause == None && d.riskHypothesis == None)
  {
  }

  /** The base rates at a level are those of the exemplars that broke on the same surface and,
      as the level gets more specific, rail, step, source and code. */
  lemma BaseRatesAreOfTheLike(ctx: Context, ex: Exemplar, i: nat)
    requires i < 5
    ensures PriorKeys(ctx)[i] in KeysOf(ex) <==>
            && ex.surface == (if ctx.surface == Payment then "payment" else if ctx.surface == Mandate then "mandate" else "receivable")
            && (i <= 3 ==> ex.rail == ctx.rail) && (i <= 2 ==> ex.step == ctx.step)
            && (i <= 1 ==> ex.source == ctx.source) && (i == 0 ==> ex.code == ctx.code)
  {
    HistoryProperties.FiledExactly(ex, SurfaceName(ctx.surface), ctx.rail, ctx.step, ctx.source, ctx.code, i);
  }

  /** Another stream, be it one that differs only after the failure, changes the diagnosis
      exactly when it is left to the traffic and the two streams disagree on a spike. */
  lemma TheFutureDecidesExactly(r: RulesOnly, stream: seq<Fleet.Failure>, ctx: Context)
    requires r.fleet.Some?
    ensures var other := r.(fleet := Some((stream, r.fleet.value.1)));
            Diagnose(other, ctx) != Diagnose(r, ctx) <==>
            LeftToTraffic(r, ctx) && (IssuerSpikes(r, ctx) <==> !IssuerSpikes(other, ctx))
  {
    var other := r.(fleet := Some((stream, r.fleet.value.1)));
    if LeftToTraffic(r, ctx) {
      QuietTrafficIsUnsure(r, ctx);
      QuietTrafficIsUnsure(other, ctx);
    }
  }

  lemma QuietTrafficIsUnsure(r: RulesOnly, ctx: Context)
    requires LeftToTraffic(r, ctx)
    ensures Diagnose(r, ctx).confidence == 0.8 <==> IssuerSpikes(r, ctx)
  {
  }

  /** No cause of the pool is commoner than the first of its prior. */
  lemma FirstIsCommonest(exemplars: seq<Exemplar>, keys: seq<seq<string>>, c: RootCause)
    requires (forall i | 0 <= i < |keys| :: keys[i] != []) && exemplars != []
    requires c in HistoryProperties.Pool(exemplars, keys, 25)
    ensures var d, pool := PriorFrom(exemplars, keys, 25).0, HistoryProperties.Pool(exemplars, keys, 25);
            d != [] && multiset(pool)[c] <= multiset(pool)[d[0].0]
  {
    var d, pool := PriorFrom(exemplars, keys, 25).0, HistoryProperties.Pool(exemplars, keys, 25);
    HistoryProperties.PriorIsDistribution(exemplars, keys, 25);
    var e :| e in d && e.0 == c;
    assert d[0] in d && d[0].1 >= e.1;
    PurerIsMore(multiset(pool)[c], multiset(pool)[d[0].0], |pool|);
  }

  /** The prior names a risk exactly when at least 15% of its pool must never be retried. */
  lemma RiskIsFrequency(exemplars: seq<Exemplar>, keys: seq<seq<string>>)
    requires (forall i | 0 <= i < |keys| :: keys[i] != []) && exemplars != []
    ensures var d, pool := PriorFrom(exemplars, keys, 25).0, HistoryProperties.Pool(exemplars, keys, 25);
            && pool != []
            && (RiskiestAlternative(d, 0.15).Some? <==> Ratio(HistoryProperties.Forbidden(pool), |pool|) >= 0.15)
            && (RiskiestAlternative(d, 0.15).Some? ==> RiskiestAlternative(d, 0.15).value in NEVER_RETRY)
  {
    var d := PriorFrom(exemplars, keys, 25).0;
    HistoryProperties.RiskyMassIsFrequency(exemplars, keys, 25);
    HistoryProperties.RiskNamedExactly(d, 0.15);
    RiskyMassNeedsRisk(d);
  }

  /** An answer from base rates is never confident, names the commonest cause of the pool it
      came from, and names a risk exactly when at least 15% of that pool must never be
      retried. */
  lemma PriorAnswersAreGuarded(r: RulesOnly, ctx: Context)
    requires BranchOf(r, ctx) == Prior
    ensures var d, prior := Diagnose(r, ctx), PriorOf(r, ctx);
            && d.confidence == (if prior[0].1 <= 0.6 then prior[0].1 else 0.6)
            && d.alternativeCause == if |prior| == 1 then None else Some(prior[1].0)
    ensures var pool := HistoryProperties.Pool(r.history.value, PriorKeys(ctx), 25);
            && pool != []
            && (forall c <- pool :: multiset(pool)[c] <= multiset(pool)[Diagnose(r, ctx).rootCause])
            && (Diagnose(r, ctx).riskHypothesis.Some? <==>
                  Ratio(HistoryProperties.Forbidden(pool), |pool|) >= 0.15)
            && (Diagnose(r, ctx).riskHypothesis.Some? ==> Diagnose(r, ctx).riskHypothesis.value in NEVER_RETRY)
  {
    var exemplars, keys := r.history.value, PriorKeys(ctx);
    PriorNeedsHistory(exemplars, keys);
    RiskIsFrequency(exemplars, keys);
    assert Diagnose(r, ctx) == FromPrior(PriorFrom(exemplars, keys, 25).0);
    forall c <- HistoryProperties.Pool(exemplars, keys, 25)
      ensures multiset(HistoryProperties.Pool(exemplars, keys, 25))[c] <=
              multiset(HistoryProperties.Pool(exemplars, keys, 25))[PriorFrom(exemplars, keys, 25).0[0].0]
    {
      FirstIsCommonest(exemplars, keys, c);
    }
  }

  lemma HistoryMakesPriors(exemplars: seq<Exemplar>, keys: seq<seq<string>>)
    requires (forall i | 0 <= i < |keys| :: keys[i] != []) && exemplars != []
    ensures PriorFrom(exemplars, keys, 25).0 != []
  {
    HistoryProperties.PriorIsDistribution(exemplars, keys, 25);
  }

  /** The rules with their history learnt in another order. */
  function Relearnt(r: RulesOnly, ys: seq<Exemplar>): RulesOnly {
    r.(history := Some(ys))
  }

  /** Learnt in any order, the same history leaves the answer to its base rates. */
  lemma OrderKeepsBranch(r: RulesOnly, ys: seq<Exemplar>, ctx: Context)
    requires BranchOf(r, ctx) == Prior && multiset(ys) == multiset(r.history.value)
    ensures BranchOf(Relearnt(r, ys), ctx) == Prior
    ensures r.history.value != [] && ys != []
  {
    PriorNeedsHistory(r.history.value, PriorKeys(ctx));
    assert |ys| == |multiset(ys)| == |r.history.value|;
    HistoryProperties.ExactForgetsOrder(r.fold, r.history.value, ys, ctx.description, 0.8);
    HistoryMakesPriors(ys, PriorKeys(ctx));
  }

  /** Two pools with the same causes as often are topped by as common a cause. */
  lemma TopsAreAsCommon(a: seq<RootCause>, b: seq<RootCause>, x: RootCause, y: RootCause)
    requires multiset(a) == multiset(b) && x in a && y in b
    requires (forall c <- a :: multiset(a)[c] <= multiset(a)[x]) && forall c <- b :: multiset(b)[c] <= multiset(b)[y]
    ensures multiset(a)[x] == multiset(b)[y] && |a| == |b|
  {
    assert |a| == |multiset(a)| == |multiset(b)| == |b|;
    assert x in multiset(b) && y in multiset(a);
  }

  /** How sure the base rates are, and whether they name a risk, does not depend on the order
      the history was learnt in. */
  lemma PriorGuardsForgetOrder(r: RulesOnly, ys: seq<Exemplar>, ctx: Context)
    requires BranchOf(r, ctx) == Prior && multiset(ys) == multiset(r.history.value)
    ensures Diagnose(Relearnt(r, ys), ctx).confidence == Diagnose(r, ctx).confidence
    ensures Diagnose(Relearnt(r, ys), ctx).riskHypothesis.Some? <==> Diagnose(r, ctx).riskHypothesis.Some?
  {
    var xs, keys := r.history.value, PriorKeys(ctx);
    var a, b := HistoryProperties.Pool(xs, keys, 25), HistoryProperties.Pool(ys, keys, 25);
    OrderKeepsBranch(r, ys, ctx);
    PriorAnswersAreGuarded(r, ctx);
    PriorAnswersAreGuarded(Relearnt(r, ys), ctx);
    TopShare(r, ctx);
    TopShare(Relearnt(r, ys), ctx);
    HistoryProperties.PoolForgetsOrder(xs, ys, keys, 25);
    TopsAreAsCommon(a, b, Diagnose(r, ctx).rootCause, Diagnose(Relearnt(r, ys), ctx).rootCause);
    HistoryProperties.ForbiddenForgetsOrder(a, b);
  }

  /** The cause named is in the pool, and the confidence is its share there, up to the cap. */
  lemma TopShare(r: RulesOnly, ctx: Context)
    requires BranchOf(r, ctx) == Prior
    ensures var pool := HistoryProperties.Pool(r.history.value, PriorKeys(ctx), 25);
            && Diagnose(r, ctx).rootCause in pool
            && Diagnose(r, ctx).confidence == Min(0.6, Ratio(multiset(pool)[Diagnose(r, ctx).rootCause], |pool|))
  {
    var exemplars, keys := r.history.value, PriorKeys(ctx);
    PriorNeedsHistory(exemplars, keys);
    HistoryProperties.PoolIsNotEmpty(exemplars, keys, 25);
    HistoryProperties.PriorComesFromPool(exemplars, keys, 25);
    HistoryProperties.TopOfPool(HistoryProperties.Pool(exemplars, keys, 25));
    assert Diagnose(r, ctx) == FromPrior(HistoryProperties.PoolShares(HistoryProperties.Pool(exemplars, keys, 25)));
  }

  /** One cause is strictly commoner in the pool than any other. */
  ghost predicate CommonestIsUnique(pool: seq<RootCause>, top: RootCause) {
    forall c | c != top :: multiset(pool)[c] < multiset(pool)[top]
  }

  /** A cause as common as the one named is named instead, once its history is learnt first. */
  lemma ATieFollowsOrder(r: RulesOnly, ctx: Context, c: RootCause) returns (ys: seq<Exemplar>)
    requires BranchOf(r, ctx) == Prior
    requires var pool := HistoryProperties.Pool(r.history.value, PriorKeys(ctx), 25);
             multiset(pool)[c] == multiset(pool)[Diagnose(r, ctx).rootCause]
    ensures multiset(ys) == multiset(r.history.value) && Diagnose(Relearnt(r, ys), ctx).rootCause == c
  {
    var xs, keys := r.history.value, PriorKeys(ctx);
    NamedIsCommonest(r, ctx);
    assert c in multiset(HistoryProperties.Pool(xs, keys, 25));
    ys := HistoryProperties.ATieCanTop(xs, keys, 25, c);
    OrderKeepsBranch(r, ys, ctx);
    HistoryProperties.PriorComesFromPool(ys, keys, 25);
    assert PriorOf(Relearnt(r, ys), ctx) == HistoryProperties.PoolShares(HistoryProperties.Pool(ys, keys, 25));
  }

  lemma NamedIsCommonest(r: RulesOnly, ctx: Context)
    requires BranchOf(r, ctx) == Prior
    ensures var pool := HistoryProperties.Pool(r.history.value, PriorKeys(ctx), 25);
            && multiset(pool)[Diagnose(r, ctx).rootCause] > 0
            && forall c :: multiset(pool)[c] <= multiset(pool)[Diagnose(r, ctx).rootCause]
  {
    var pool := HistoryProperties.Pool(r.history.value, PriorKeys(ctx), 25);
    TopShare(r, ctx);
    PriorAnswersAreGuarded(r, ctx);
    forall c ensures multiset(pool)[c] <= multiset(pool)[Diagnose(r, ctx).rootCause] {
      assert c in multiset(pool) ==> c in pool;
    }
  }

  /** The cause the base rates name is the same in every order exactly when no other is as common. */
  lemma PriorCauseForgetsOrderExactly(r: RulesOnly, ctx: Context)
    requires BranchOf(r, ctx) == Prior
    ensures (forall ys | multiset(ys) == multiset(r.history.value) ::
               Diagnose(Relearnt(r, ys), ctx).rootCause == Diagnose(r, ctx).rootCause) <==>
            CommonestIsUnique(HistoryProperties.Pool(r.history.value, PriorKeys(ctx), 25), Diagnose(r, ctx).rootCause)
  {
    var pool, top := HistoryProperties.Pool(r.history.value, PriorKeys(ctx), 25), Diagnose(r, ctx).rootCause;
    NamedIsCommonest(r, ctx);
    if CommonestIsUnique(pool, top) {
      forall ys | multiset(ys) == multiset(r.history.value) ensures Diagnose(Relearnt(r, ys), ctx).rootCause == top {
        OrderKeepsBranch(r, ys, ctx);
        NamedIsCommonest(Relearnt(r, ys), ctx);
        HistoryProperties.PoolForgetsOrder(r.history.value, ys, PriorKeys(ctx), 25);
      }
    } else {
      var c :| c != top && multiset(pool)[c] >= multiset(pool)[top];
      var ys := ATieFollowsOrder(r, ctx, c);
      assert Diagnose(Relearnt(r, ys), ctx).rootCause != top;
    }
  }

  /** An empty history has no base rates. */
  lemma PriorNeedsHistory(exemplars: seq<Exemplar>, keys: seq<seq<string>>)
    requires (forall i | 0 <= i < |keys| :: keys[i] != []) && PriorFrom(exemplars, keys, 25).0 != []
    ensures exemplars != []
  {
    if exemplars == [] {
      EmptyPrior(keys);
    }
  }

  lemma {:induction false} EmptyPrior(keys: seq<seq<string>>)
    requires forall i | 0 <= i < |keys| :: keys[i] != []
    ensures PriorFrom([], keys, 25).0 == []
  {
    if keys != [] {
      EmptyPrior(keys[1..]);
    }
  }

  lemma RiskyMassNeedsRisk(d: Distribution)
    ensures Mass(Risky(d)) > 0.0 ==> exists e <- d :: e.0 in NEVER_RETRY
  {
    HistoryProperties.RiskyIsForbidden(d);
    if Mass(Risky(d)) > 0.0 {
      assert Risky(d) != [];
      assert Risky(d)[0] in Risky(d);
    }
  }

  lemma PurerIsMore(a: nat, b: nat, total: nat)
    requires total > 0 && Ratio(a, total) <= Ratio(b, total)
    ensures a <= b
  {
    RatioTimes(a, total);
    RatioTimes(b, total);
  }

  /** The diagnosis itself names, or its base rates leave in play, a cause that must never be
      retried. */
  predicate RetryIsForbidden(r: RulesOnly, ctx: Context) {
    || Diagnose(r, ctx).rootCause in NEVER_RETRY
    || (BranchOf(r, ctx) == Prior &&
        var pool := HistoryProperties.Pool(r.history.value, PriorKeys(ctx), 25);
        pool != [] && Ratio(HistoryProperties.Forbidden(pool), |pool|) >= 0.15)
  }

  /** End to end: on such a diagnosis, under the shipped never-retry list, no run ever
      re-presents the payment, whatever the strategy proposes and the world answers. */
  lemma ForbiddenRetriesNeverRun(r: RulesOnly, ctx: Context, ep: Runner.Episode)
    requires ep.policy.Valid() && ep.policy.money.neverRetryCauses == SHIPPED_NEVER_RETRY
    requires ep.diagnosis == Some(Diagnose(r, ctx)) && RetryIsForbidden(r, ctx)
    ensures RunnerSafety.RetryLog(Runner.RunEpisode(ep).executed) == []
  {
    ShippedNeverRetryAgrees();
    if BranchOf(r, ctx) == Prior {
      PriorAnswersAreGuarded(r, ctx);
    }
    RunTheorems.ForbiddenCauseIsNeverRetried(ep);
  }
}
