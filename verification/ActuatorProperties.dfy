/** One intent, one link: over every run of calls, failures and crashes. */
module ActuatorProperties {
  import opened Domain
  import opened Text
  import opened Gate
  import opened Actuator

  /* ----- which intents share a key ----- */

  lemma {:induction false} UnderscoredIsEmptyExactly(s: string)
    ensures Underscored(s) == [] <==> s == []
  {
  }

  lemma {:induction false} SpaceFreeIsKept(s: string)
    requires ' ' !in s
    ensures Underscored(s) == s
  {
    if s != [] {
      SpaceFreeIsKept(s[1..]);
      assert s == [s[0]] + s[1..];
    }
  }

  lemma {:induction false} DigitsAreKept(s: string)
    requires AllDigits(s)
    ensures Underscored(s) == s
  {
    SpaceFreeIsKept(s);
  }

  /** The reference part of a key, with the sign of the step when it has one. */
  function Stem(episodeRef: string, step: int): string {
    (if episodeRef == [] then "wapas" else "wapas" + (['-'] + Underscored(episodeRef)))
    + (if step < 0 then "-" else "")
  }

  function Size(step: int): nat {
    if step < 0 then -step else step
  }

  lemma {:induction false} UnderscoredAppend(a: string, b: string)
    ensures Underscored(a + b) == Underscored(a) + Underscored(b)
  {
    if a == [] {
      assert a + b == b;
    } else {
      assert (a + b)[1..] == a[1..] + b;
      UnderscoredAppend(a[1..], b);
    }
  }

  lemma StepText(step: int)
    ensures Underscored(IntText(step)) == IntText(step) == (if step < 0 then "-" else "") + NatText(Size(step))
    ensures IntText(step) != []
  {
    DigitsAreKept(NatText(Size(step)));
    UnderscoredAppend(if step < 0 then "-" else "", NatText(Size(step)));
  }

  lemma JoinedRef(episodeRef: string)
    ensures JoinParts(["wapas", episodeRef]) == Stem(episodeRef, 0)
  {
    var two := ["wapas", episodeRef];
    assert two[1] == episodeRef && two[..1] == ["wapas"];
    assert ["wapas"][..0] == [];
    assert JoinParts([]) == [];
    SpaceFreeIsKept("wapas");
    assert JoinParts(["wapas"]) == "wapas";
  }

  /** What a key looks like: the last dash is followed by digits. */
  lemma KeyShape(episodeRef: string, step: int)
    ensures IdempotencyKey(episodeRef, step) == Stem(episodeRef, 0) + (['-'] + IntText(step))
    ensures step >= 0 ==> IdempotencyKey(episodeRef, step) == Stem(episodeRef, step) + (['-'] + NatText(step))
    ensures step < 0 ==> IdempotencyKey(episodeRef, step) == (Stem(episodeRef, 0) + ['-']) + (['-'] + NatText(-step))
  {
    var parts := ["wapas", episodeRef, IntText(step)];
    assert parts[2] == IntText(step) && parts[..2] == ["wapas", episodeRef];
    JoinedRef(episodeRef);
    StepText(step);
  }

  /** Two intents share a key exactly when their steps are of one size and their references,
      the sign of the step added, read alike with spaces underscored. */
  lemma KeysAgreeExactly(ref: string, step: int, otherRef: string, otherStep: int)
    ensures IdempotencyKey(ref, step) == IdempotencyKey(otherRef, otherStep) <==>
            Stem(ref, step) == Stem(otherRef, otherStep) && Size(step) == Size(otherStep)
  {
    KeyShape(ref, step);
    KeyShape(otherRef, otherStep);
    assert IdempotencyKey(ref, step) == Stem(ref, step) + (['-'] + NatText(Size(step)));
    assert IdempotencyKey(otherRef, otherStep) == Stem(otherRef, otherStep) + (['-'] + NatText(Size(otherStep)));
    if IdempotencyKey(ref, step) == IdempotencyKey(otherRef, otherStep) {
      SplitAtLast('-', Stem(ref, step), NatText(Size(step)), Stem(otherRef, otherStep), NatText(Size(otherStep)));
      NatTextInjective(Size(step), Size(otherStep));
    }
  }

  lemma StemExactly(ref: string, otherRef: string)
    ensures Stem(ref, 0) == Stem(otherRef, 0) <==> Underscored(ref) == Underscored(otherRef)
  {
    UnderscoredIsEmptyExactly(ref);
    UnderscoredIsEmptyExactly(otherRef);
    if Stem(ref, 0) == Stem(otherRef, 0) && ref != [] && otherRef != [] {
      assert Stem(ref, 0) == "wapas" + (['-'] + Underscored(ref));
      assert Stem(otherRef, 0) == "wapas" + (['-'] + Underscored(otherRef));
      SplitByLength("wapas", ['-'] + Underscored(ref), "wapas", ['-'] + Underscored(otherRef));
      SplitByLength(['-'], Underscored(ref), ['-'], Underscored(otherRef));
    }
  }

  /** For steps that count from zero: exactly when the references read alike and the steps
      are equal. */
  lemma NaturalKeysAgreeExactly(ref: string, step: nat, otherRef: string, otherStep: nat)
    ensures IdempotencyKey(ref, step) == IdempotencyKey(otherRef, otherStep) <==>
            Underscored(ref) == Underscored(otherRef) && step == otherStep
  {
    KeysAgreeExactly(ref, step, otherRef, otherStep);
    StemExactly(ref, otherRef);
  }

  /** So references without spaces never collide. */
  lemma DistinctIntentsDistinctKeys(ref: string, step: nat, otherRef: string, otherStep: nat)
    requires ' ' !in ref && ' ' !in otherRef
    ensures IdempotencyKey(ref, step) == IdempotencyKey(otherRef, otherStep) <==> ref == otherRef && step == otherStep
  {
    NaturalKeysAgreeExactly(ref, step, otherRef, otherStep);
    SpaceFreeIsKept(ref);
    SpaceFreeIsKept(otherRef);
  }

  /** A negative step shares the key of a natural one exactly when the reference of the latter
      is that of the former with a dash: the sign is taken for its end. */
  lemma NegativeStepsCollideExactly(ref: string, step: int, otherRef: string, otherStep: nat)
    requires step < 0
    ensures IdempotencyKey(ref, step) == IdempotencyKey(otherRef, otherStep) <==>
            otherStep == -step && ref != [] && Underscored(otherRef) == Underscored(ref) + "-"
  {
    KeysAgreeExactly(ref, step, otherRef, otherStep);
    UnderscoredIsEmptyExactly(ref);
    UnderscoredIsEmptyExactly(otherRef);
    var mine, theirs := Stem(ref, step), Stem(otherRef, otherStep);
    if ref == [] {
      assert mine == "wapas-" && |mine| == 6;
      if otherRef != [] {
        assert |theirs| > 6;
      }
    } else {
      assert mine == "wapas" + (['-'] + (Underscored(ref) + "-"));
      if mine == theirs && otherRef != [] {
        SplitByLength("wapas", ['-'] + (Underscored(ref) + "-"), "wapas", ['-'] + Underscored(otherRef));
        SplitByLength(['-'], Underscored(ref) + "-", ['-'], Underscored(otherRef));
      }
    }
  }

  /* ----- runs ----- */

  /** A call that is answered, a call the process dies in after the provider acted, or a
      death between calls. A new process starts with an empty store. */
  datatype Step = Invoke(q: Request) | DiesDuring(q: Request) | Dies

  /** The world, and every result handed to a caller so far. */
  datatype Run = Run(world: World, results: seq<ActuationResult>)

  function Forgotten(w: World): World {
    World(w.links, map[], 0)
  }

  function Do(r: Run, step: Step): Run {
    match step
    case Invoke(q) =>
      var (w, outcome) := Attempt(r.world, q, false);
      Run(w, if outcome.Done? then r.results + [outcome.result] else r.results)
    case DiesDuring(q) => r.(world := Forgotten(Attempt(r.world, q, false).0))
    case Dies => r.(world := Forgotten(r.world))
  }

  function DoAll(r: Run, steps: seq<Step>): Run {
    if steps == [] then r else Do(DoAll(r, steps[..|steps| - 1]), steps[|steps| - 1])
  }

  function Effects(results: seq<ActuationResult>, key: string): nat {
    if results == [] then 0
    else
      var last := results[|results| - 1];
      Effects(results[..|results| - 1], key) + (if last.key == key && last.CausedAnEffect() then 1 else 0)
  }

  /** No two links carry one reference. */
  ghost predicate OneLinkEach(links: seq<Link>) {
    forall i, j | 0 <= i < j < |links| :: links[i].referenceId != links[j].referenceId
  }

  /** A success names the link the provider holds under its key. */
  ghost predicate Truthful(links: seq<Link>, r: ActuationResult) {
    r.ok ==> Link(r.providerId, r.key) in links
  }

  ghost predicate SoundWorld(w: World) {
    && OneLinkEach(w.links)
    && forall k <- w.store :: w.store[k].key == k && Truthful(w.links, w.store[k])
  }

  /** What callers were told is true, and an effect was told at most once for a key, of a link. */
  ghost predicate SoundResults(links: seq<Link>, results: seq<ActuationResult>) {
    && (forall x <- results :: Truthful(links, x))
    && forall k: string :: Effects(results, k) <= (if Holds(links, k) then 1 else 0)
  }

  ghost predicate Inv(r: Run) {
    SoundWorld(r.world) && SoundResults(r.world.links, r.results)
  }

  /** Nothing is lost: every link and every key held stays. */
  ghost predicate Keeps(links: seq<Link>, after: seq<Link>) {
    && (forall l <- links :: l in after)
    && forall k: string :: Holds(links, k) ==> Holds(after, k)
  }

  lemma LinksOnlyGrow(links: seq<Link>, key: string, fate: CreateFate)
    requires OneLinkEach(links)
    ensures OneLinkEach(LinksAfter(links, key, fate))
    ensures forall l <- links :: l in LinksAfter(links, key, fate)
    ensures forall k: string :: Holds(links, k) ==> Holds(LinksAfter(links, key, fate), k)
  {
    var after := LinksAfter(links, key, fate);
    forall k: string | Holds(links, k) ensures Holds(after, k) {
      var i :| 0 <= i < |links| && links[i].referenceId == k;
      assert after[i] == links[i];
    }
  }

  lemma ResultIsTruthful(links: seq<Link>, key: string, fate: Fate)
    ensures ResultOf(links, key, fate).key == key
    ensures Truthful(LinksAfter(links, key, fate.create), ResultOf(links, key, fate))
    ensures ResultOf(links, key, fate).CausedAnEffect() ==>
              !Holds(links, key) && Holds(LinksAfter(links, key, fate.create), key)
  {
    var after := LinksAfter(links, key, fate.create);
    if ReplyTo(links, key, fate.create).Created? {
      assert after[|links|] == Link(fate.create.id, key);
    }
  }

  lemma AttemptKeepsWorld(w: World, q: Request)
    requires SoundWorld(w)
    ensures SoundWorld(Attempt(w, q, false).0) && Keeps(w.links, Attempt(w, q, false).0.links)
  {
    LinksOnlyGrow(w.links, q.Key(), q.fate.create);
    ResultIsTruthful(w.links, q.Key(), q.fate);
  }

  lemma KeepingKeepsResults(links: seq<Link>, after: seq<Link>, results: seq<ActuationResult>)
    requires SoundResults(links, results) && Keeps(links, after)
    ensures SoundResults(after, results)
  {
  }

  /** An answer is true, and an effect it tells of is of a link just gained. */
  lemma AttemptTellsTheTruth(w: World, q: Request)
    requires SoundWorld(w) && Attempt(w, q, false).1.Done?
    ensures var (after, outcome) := Attempt(w, q, false);
            && Truthful(after.links, outcome.result)
            && (outcome.result.CausedAnEffect() ==>
                  !Holds(w.links, outcome.result.key) && Holds(after.links, outcome.result.key))
  {
    ResultIsTruthful(w.links, q.Key(), q.fate);
  }

  lemma OneMoreResult(links: seq<Link>, after: seq<Link>, results: seq<ActuationResult>, x: ActuationResult)
    requires SoundResults(links, results) && Keeps(links, after) && Truthful(after, x)
    requires x.CausedAnEffect() ==> !Holds(links, x.key) && Holds(after, x.key)
    ensures SoundResults(after, results + [x])
  {
    assert (results + [x])[..|results|] == results;
  }

  lemma StepKeepsInv(r: Run, step: Step)
    requires Inv(r)
    ensures Inv(Do(r, step))
  {
    if !step.Dies? {
      var (after, outcome) := Attempt(r.world, step.q, false);
      AttemptKeepsWorld(r.world, step.q);
      KeepingKeepsResults(r.world.links, after.links, r.results);
      if step.Invoke? && outcome.Done? {
        AttemptTellsTheTruth(r.world, step.q);
        OneMoreResult(r.world.links, after.links, r.results, outcome.result);
      }
    }
  }

  lemma {:induction false} RunKeepsInv(r: Run, steps: seq<Step>)
    requires Inv(r)
    ensures Inv(DoAll(r, steps))
  {
    if steps != [] {
      RunKeepsInv(r, steps[..|steps| - 1]);
      StepKeepsInv(DoAll(r, steps[..|steps| - 1]), steps[|steps| - 1]);
    }
  }

  /** Whatever fails and whenever the process dies: the provider holds at most one link per
      key, every success for a key names that link, and at most one call ever reports
      having caused it. */
  lemma OneIntentOneLink(links: seq<Link>, steps: seq<Step>)
    requires OneLinkEach(links)
    ensures var r := DoAll(Run(World(links, map[], 0), []), steps);
            && OneLinkEach(r.world.links)
            && (forall x <- r.results, y <- r.results :: x.ok && y.ok && x.key == y.key ==> x.providerId == y.providerId)
            && (forall k: string :: Effects(r.results, k) <= 1)
  {
    RunKeepsInv(Run(World(links, map[], 0), []), steps);
    var r := DoAll(Run(World(links, map[], 0), []), steps);
    forall x <- r.results, y <- r.results | x.ok && y.ok && x.key == y.key ensures x.providerId == y.providerId {
      assert Link(x.providerId, x.key) in r.world.links && Link(y.providerId, y.key) in r.world.links;
    }
  }

  /** No death, between calls or during one. */
  predicate Lives(steps: seq<Step>) {
    forall i | 0 <= i < |steps| :: steps[i].Invoke?
  }

  /** The key is remembered as `first`, and this is what the provider holds under it. */
  ghost predicate Remembers(r: Run, key: string, first: ActuationResult, held: set<Link>) {
    && key in r.world.store && r.world.store[key].(replayed := true) == first.(replayed := true)
    && (set l <- r.world.links | l.referenceId == key) == held
  }

  /** Every answer from position `n` on for this key is the first one, replayed. */
  ghost predicate Replays(results: seq<ActuationResult>, n: nat, key: string, first: ActuationResult) {
    forall i | n <= i < |results| && results[i].key == key :: results[i] == first.(replayed := true)
  }

  lemma InvokeReplays(r: Run, q: Request, key: string, first: ActuationResult, held: set<Link>, n: nat)
    requires Inv(r) && Remembers(r, key, first, held) && Replays(r.results, n, key, first) && n <= |r.results|
    ensures var after := Do(r, Invoke(q));
            && Remembers(after, key, first, held) && Replays(after.results, n, key, first)
            && n <= |after.results|
  {
    var (w, outcome) := Attempt(r.world, q, false);
    if outcome.Done? && q.Key() !in r.world.store {
      ResultIsTruthful(r.world.links, q.Key(), q.fate);
      var links, after := r.world.links, w.links;
      assert forall l :: l in after && l.referenceId == key ==> l in links;
      assert forall l <- links :: l in after;
    }
  }

  lemma {:induction false} LivingReplays(r: Run, steps: seq<Step>, key: string, first: ActuationResult, held: set<Link>)
    requires Inv(r) && Remembers(r, key, first, held) && Lives(steps)
    ensures var after := DoAll(r, steps);
            && Inv(after) && Remembers(after, key, first, held)
            && Replays(after.results, |r.results|, key, first)
            && |r.results| <= |after.results|
  {
    RunKeepsInv(r, steps);
    if steps != [] {
      var before := steps[..|steps| - 1];
      LivingReplays(r, before, key, first, held);
      RunKeepsInv(r, before);
      assert steps[|steps| - 1].Invoke?;
      InvokeReplays(DoAll(r, before), steps[|steps| - 1].q, key, first, held, |r.results|);
    }
  }

  /** Until the process dies an answer is final: whatever came before and whatever calls
      follow, every later one for its key returns the first result replayed, a failed one
      too, and the provider's links under the key stay what they were. */
  lemma AnswersAreReplayed(links: seq<Link>, earlier: seq<Step>, q: Request, steps: seq<Step>)
    requires OneLinkEach(links) && RefusalOf(q.decision, q.amount).None? && Lives(steps)
    ensures var r := DoAll(Run(World(links, map[], 0), []), earlier);
            Attempt(r.world, q, false).1.Done?
    ensures var r := DoAll(Run(World(links, map[], 0), []), earlier);
            var first, answered := Attempt(r.world, q, false).1.result, Do(r, Invoke(q));
            var after := DoAll(answered, steps);
            && (forall i | |answered.results| <= i < |after.results| && after.results[i].key == q.Key() ::
                  after.results[i] == first.(replayed := true))
            && (set l <- after.world.links | l.referenceId == q.Key()) ==
               (set l <- answered.world.links | l.referenceId == q.Key())
            && (forall later: Request | later.Key() == q.Key() && RefusalOf(later.decision, later.amount).None? ::
                  Attempt(after.world, later, false) == (after.world, Done(first.(replayed := true))))
  {
    RunKeepsInv(Run(World(links, map[], 0), []), earlier);
    var r := DoAll(Run(World(links, map[], 0), []), earlier);
    var first, answered := Attempt(r.world, q, false).1.result, Do(r, Invoke(q));
    var held := set l <- answered.world.links | l.referenceId == q.Key();
    StepKeepsInv(r, Invoke(q));
    LivingReplays(answered, steps, q.Key(), first, held);
  }

  /** A refusal touches nothing, and happens for any decision that is not an approved link
      for a positive amount. */
  lemma NothingWithoutApproval(w: World, q: Request, dryRun: bool)
    ensures Attempt(w, q, dryRun).1.Refused? <==>
            !(q.decision.verdict != Deny && q.decision.action.Some?
              && q.decision.action.value.tool == CreatePaymentLink && q.amount > 0)
    ensures Attempt(w, q, dryRun).1.Refused? ==> Attempt(w, q, dryRun).0 == w
  {
  }

  /** The reason given is the first that holds: denied, no action, another tool, no amount. */
  lemma RefusalExactly(w: World, q: Request, dryRun: bool, why: ActuationRefused)
    ensures Attempt(w, q, dryRun).1 == Refused(why) <==>
            match why
            case Denied => q.decision.verdict == Deny
            case NoAction => q.decision.verdict != Deny && q.decision.action == None
            case WrongTool =>
              q.decision.verdict != Deny && q.decision.action.Some? && q.decision.action.value.tool != CreatePaymentLink
            case BadAmount =>
              && q.decision.verdict != Deny && q.decision.action.Some?
              && q.decision.action.value.tool == CreatePaymentLink && q.amount <= 0
  {
  }

  /** Nothing stands in the way of a call: it is approved, its key is new to this process. */
  predicate IsLive(w: World, q: Request) {
    && q.decision.verdict != Deny && q.decision.action.Some?
    && q.decision.action.value.tool == CreatePaymentLink && q.amount > 0
    && q.Key() !in w.store
  }

  /** A call reports an effect exactly when nothing stands in its way, the provider holds no
      link under its key and the create goes through; it then carries the provider's id, and
      the provider has gained that link. */
  lemma EffectExactly(w: World, q: Request)
    ensures var (after, outcome) := Attempt(w, q, false);
            && (outcome.Done? && outcome.result.CausedAnEffect() <==>
                  IsLive(w, q) && !Holds(w.links, q.Key()) && q.fate.create.GoesThrough?)
            && (outcome.Done? && outcome.result.CausedAnEffect() ==>
                  && outcome.result == ActuationResult(true, q.Key(), q.fate.create.id, false, false)
                  && after.links == w.links + [Link(q.fate.create.id, q.Key())])
  {
  }

  /** The provider gains a link, that of the key, exactly when nothing stands in the way, it
      holds none, and the create takes effect, whether or not the caller hears of it. */
  lemma LinkGainedExactly(w: World, q: Request)
    ensures var after := Attempt(w, q, false).0;
            && (after.links != w.links <==>
                  && IsLive(w, q) && !Holds(w.links, q.Key())
                  && (q.fate.create.GoesThrough? || q.fate.create.FailsAfter?))
            && (after.links != w.links ==> after.links == w.links + [Link(q.fate.create.id, q.Key())])
  {
  }

  /** The provider answers that it has this reference already, rightly or not. */
  predicate SaysDuplicate(links: seq<Link>, q: Request) {
    if Holds(links, q.Key()) then !q.fate.create.FailsBefore? else q.fate.create.LooksDuplicate?
  }

  /** A live call adopts a link exactly when the provider says it has one and the listing
      shows it; it then carries that link's id and claims no effect. */
  lemma AdoptionExactly(w: World, q: Request)
    requires IsLive(w, q)
    ensures var outcome := Attempt(w, q, false).1;
            && outcome.Done?
            && (outcome.result.reconciled <==>
                  && SaysDuplicate(w.links, q) && q.fate.list.Lists?
                  && exists l <- Listed(w.links, q.fate.list.positions) :: l.referenceId == q.Key())
            && (outcome.result.reconciled ==>
                  && outcome.result == ActuationResult(true, q.Key(), outcome.result.providerId, false, true)
                  && Link(outcome.result.providerId, q.Key()) in w.links)
  {
  }

  /** A live call succeeds by an effect or an adoption and fails otherwise; either way its
      answer is kept, and it costs one call to the provider, two when it had to list. */
  lemma LiveCallsExactly(w: World, q: Request)
    requires IsLive(w, q)
    ensures var (after, outcome) := Attempt(w, q, false);
            && outcome.Done?
            && (outcome.result.ok <==> outcome.result.CausedAnEffect() || outcome.result.reconciled)
            && (!outcome.result.ok ==> outcome.result == ActuationResult(false, q.Key(), "", false, false))
            && after.store == w.store[q.Key() := outcome.result]
            && after.calls == w.calls + (if SaysDuplicate(w.links, q) then 2 else 1)
  {
  }

  /** A dry run that is live reports success under a made-up id, is remembered, and never
      reaches the provider. */
  lemma DryRunsStayHome(w: World, q: Request)
    ensures Attempt(w, q, true).0.links == w.links && Attempt(w, q, true).0.calls == w.calls
    ensures IsLive(w, q) ==>
              var r := ActuationResult(true, q.Key(), "dry_" + q.Key(), false, false);
              Attempt(w, q, true) == (w.(store := w.store[q.Key() := r]), Done(r))
  {
  }

  /** After a crash between the call and the write, a retry that can list the link adopts it
      instead of making another: no new link, same id, and no effect claimed. */
  lemma RetryAdoptsTheLink(w: World, q: Request, retry: Request, i: nat, id: string)
    requires OneLinkEach(w.links)
    requires RefusalOf(q.decision, q.amount).None? && RefusalOf(retry.decision, retry.amount).None?
    requires retry.Key() == q.Key() && q.Key() !in w.store && !Holds(w.links, q.Key())
    requires q.fate.create == GoesThrough(id) && !retry.fate.create.FailsBefore?
    requires retry.fate.list.Lists? && |w.links| in retry.fate.list.positions
    ensures var died := Forgotten(Attempt(w, q, false).0);
            var (after, outcome) := Attempt(died, retry, false);
            && after.links == died.links
            && outcome == Done(ActuationResult(true, q.Key(), id, false, true))
  {
    var links := w.links + [Link(id, q.Key())];
    assert links[|w.links|].referenceId == q.Key();
    assert Holds(links, q.Key());
    ListedShowsPosition(links, retry.fate.list.positions, |w.links|);
    assert Link(id, q.Key()) in Listed(links, retry.fate.list.positions);
    forall l <- Listed(links, retry.fate.list.positions) | l.referenceId == q.Key() ensures l.id == id {
      assert l in links;
    }
  }

  lemma {:induction false} ListedShowsPosition(links: seq<Link>, positions: seq<nat>, p: nat)
    requires p in positions && p < |links|
    ensures links[p] in Listed(links, positions)
  {
    if positions[0] != p {
      assert p in positions[1..];
      ListedShowsPosition(links, positions[1..], p);
    }
  }
}
