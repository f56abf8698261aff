/** The policy gate. `Ruling` says, check by check, what decides an action; `PolicyGate`
    is the gate as it runs, appending to a shared log as it branches. */
module Gate {
  import opened Domain
  import opened Policy

  datatype ContactRecord = ContactRecord(at: Instant, channel: Channel, responded: bool)

  datatype GateContext = GateContext(
    now: Instant,
    rootCause: RootCause,
    amount: Paise,
    alternativeCause: Option<RootCause>,
    riskHypothesis: Option<RootCause>,
    confidence: real,
    actionsUsed: nat,
    contactsUsed: nat,
    spend: Paise,
    retriesUsed: nat,
    lastRetryAt: Option<Instant>,
    history: seq<ContactRecord>,
    consent: set<Channel>,
    onDndRegistry: bool,
    optedOut: bool,
    hasValidMandate: bool,
    isBusiness: bool,
    escalationRung: nat,
    lastRungAt: Option<Instant>,
    activePromiseUntil: Option<Instant>,
    disputeOpen: bool,
    captureVerified: bool,
    ledgerVerified: bool,
    orgSpendToday: Paise,
    killSwitchEngaged: bool)

  datatype Check =
    | BudgetActions | BudgetSpend | OrgDailyCap
    | NeverRouteAround
    | MandateRequired | NeverRetry | VerifyBeforeRetry | RetryCount | RetryGap
    | MandateReauthOnlyWhenAbsent
    | ConcessionCap | ApprovalThreshold
    | OptOut | DndRegistry | ChannelConsent | ThirdParty | DisputeOpen | ActivePromise | DispositionContact
    | RungOrdering | RungChannel | RungCooldown | RungPreconditions
    | CapEpisode | CapDay | CapWeek | CapVoiceWeek | Cooldown
    | QuietHours

  datatype Refusal =
    | KillSwitchEngaged
    | BudgetActionsExhausted | BudgetSpendExhausted | OrgDailySpendCap
    | NeverRouteAroundCause(cause: RootCause)
    | NoValidMandate
    | NeverRetryCause(cause: RootCause)
    | AlternativeNeverRetryable(fromHypothesis: bool, candidate: RootCause, confidence: real)
    | CaptureNotVerified
    | MaxRetriesReached
    | RetryGapTooShort
    | MandateAlreadyValid
    | ConcessionExceedsCap(maxPaise: Paise, asked: Paise)
    | HumanApprovalRequired
    | OptedOut | OnDndRegistry | NoChannelConsent(channel: Channel) | ThirdPartyContact
    | DisputeIsOpen | PromiseActive | ContactNotIndicated(cause: RootCause)
    | SkipRungsForbidden(at: nat, requested: int) | LadderExhausted
    | ChannelNotPermitted(rung: int, channel: Channel)
    | RungCooldownActive(earliest: Instant)
    | PreconditionFailed(pre: Precondition)
    | EpisodeContactCap | DailyContactCap | WeeklyContactCap | WeeklyVoiceCap | CooldownAfterNoResponse
    | QuietHoursReschedule(allowedAt: Instant)

  datatype Reason = ExitAlwaysAllowed | Checked(check: Check) | Because(refusal: Refusal)

  datatype Verdict = Allow | Modify | Deny

  datatype GateDecision = GateDecision(verdict: Verdict, action: Option<ProposedAction>, reasons: seq<Reason>)

  /* ----- queries over the context ----- */

  predicate Counts(c: ContactRecord, since: Instant, voiceOnly: bool) {
    c.at >= since && (voiceOnly ==> c.channel.Voice?)
  }

  function ContactsSince(history: seq<ContactRecord>, since: Instant, voiceOnly: bool): (n: nat)
    ensures n <= |history|
  {
    if history == [] then 0
    else
      (if Counts(history[|history| - 1], since, voiceOnly) then 1 else 0)
      + ContactsSince(history[..|history| - 1], since, voiceOnly)
  }

  /** The contact with the latest instant, the earliest of them on a tie. */
  function LastContact(history: seq<ContactRecord>): (c: Option<ContactRecord>)
    ensures c.None? <==> history == []
    ensures c.Some? ==> c.value in history && forall h | h in history :: h.at <= c.value.at
  {
    if history == [] then None
    else
      var earlier := LastContact(history[..|history| - 1]);
      var newest := history[|history| - 1];
      assert history == history[..|history| - 1] + [newest];
      if earlier.None? || earlier.value.at < newest.at then Some(newest) else earlier
  }

  /** The earliest instant from `t` on that is outside the window, as the gate computes it. */
  function NextAllowedTime(t: Instant, w: QuietWindow): Instant {
    if !w.Quiet(t) then t
    else
      var local := t + IST_OFFSET;
      var candidate := local - LocalTimeOfDay(t) + w.EndMinute();
      (if candidate <= local then candidate + DAY else candidate) - IST_OFFSET
  }

  function Target(action: ProposedAction, ctx: GateContext): Instant {
    if action.scheduledFor.Some? then action.scheduledFor.value else ctx.now
  }

  function RequestedRung(action: ProposedAction, ctx: GateContext): int {
    if action.args.rung.Some? then action.args.rung.value else ctx.escalationRung + 1
  }

  predicate PreconditionMet(pre: Precondition, ctx: GateContext, channel: Channel) {
    match pre
    case ChannelConsentGiven => channel in ctx.consent
    case VoiceConsentGiven => Voice in ctx.consent
    case NoActiveDispute => !ctx.disputeOpen
    case NoActivePromise => ctx.activePromiseUntil.None? || ctx.now >= ctx.activePromiseUntil.value
    case B2bOnly => ctx.isBusiness
    case LedgerVerified => ctx.ledgerVerified
    case BusinessHours => 9 * HOUR <= LocalTimeOfDay(ctx.now) < 18 * HOUR
    case MinAmount(paise) => ctx.amount >= paise
    case Unrecognised => false
  }

  function FirstUnmet(pres: seq<Precondition>, ctx: GateContext, channel: Channel): (unmet: Option<Precondition>)
    ensures unmet.None? <==> forall pre | pre in pres :: PreconditionMet(pre, ctx, channel)
  {
    if pres == [] then None
    else if !PreconditionMet(pres[0], ctx, channel) then Some(pres[0])
    else FirstUnmet(pres[1..], ctx, channel)
  }

  /** A never-retryable cause still in play under a hesitant diagnosis: the runner-up first. */
  function CauseInPlay(ctx: GateContext, never: set<RootCause>): (f: Option<Refusal>)
    ensures f.Some? <==>
            ctx.confidence < 0.75
            && ((ctx.alternativeCause.Some? && ctx.alternativeCause.value in never)
                || (ctx.riskHypothesis.Some? && ctx.riskHypothesis.value in never))
  {
    if ctx.confidence < 0.75 then
      if ctx.alternativeCause.Some? && ctx.alternativeCause.value in never then
        Some(AlternativeNeverRetryable(false, ctx.alternativeCause.value, ctx.confidence))
      else if ctx.riskHypothesis.Some? && ctx.riskHypothesis.value in never then
        Some(AlternativeNeverRetryable(true, ctx.riskHypothesis.value, ctx.confidence))
      else None
    else None
  }

  /* ----- the ruling, check by check ----- */

  /** What a check finds: nothing, a reason to refuse, or a later legal instant. */
  datatype Finding = Pass | Refuse(why: Refusal) | Reschedule(at: Instant, why: Refusal) {
    /** Checks in order: the first finding that is not a pass stands. */
    function Then(next: Finding): Finding {
      if Pass? then next else this
    }
  }

  function RefuseIf(bad: bool, why: Refusal): Finding {
    if bad then Refuse(why) else Pass
  }

  function BudgetFinding(ctx: GateContext, p: PolicyBundle): Finding {
    RefuseIf(ctx.actionsUsed >= p.budgets.maxActionsPerEpisode, BudgetActionsExhausted)
    .Then(RefuseIf(ctx.spend >= p.budgets.maxSpendPerEpisode, BudgetSpendExhausted))
    .Then(RefuseIf(ctx.orgSpendToday >= p.budgets.dailyOrgSpendCap, OrgDailySpendCap))
  }

  function RouteAroundFinding(ctx: GateContext, p: PolicyBundle): Finding {
    RefuseIf(ctx.rootCause in p.money.neverRouteAroundCauses, NeverRouteAroundCause(ctx.rootCause))
  }

  function NeverRetryFinding(ctx: GateContext, p: PolicyBundle): Finding {
    if ctx.rootCause in p.money.neverRetryCauses || !DispositionOf(ctx.rootCause).retryAllowed
    then Refuse(NeverRetryCause(ctx.rootCause))
    else
      var inPlay := CauseInPlay(ctx, p.money.neverRetryCauses);
      if inPlay.Some? then Refuse(inPlay.value) else Pass
  }

  function RetryGapFinding(action: ProposedAction, ctx: GateContext, p: PolicyBundle): Finding {
    var gap := p.money.minGapBetweenRetriesHours * HOUR;
    if ctx.lastRetryAt.Some? && Target(action, ctx) - ctx.lastRetryAt.value < gap
    then Reschedule(ctx.lastRetryAt.value + gap, RetryGapTooShort)
    else Pass
  }

  function RetryFinding(action: ProposedAction, ctx: GateContext, p: PolicyBundle): Finding {
    RefuseIf(!ctx.hasValidMandate, NoValidMandate)
    .Then(NeverRetryFinding(ctx, p))
    .Then(RefuseIf(ctx.rootCause in p.money.verifyBeforeRetryCauses && !ctx.captureVerified, CaptureNotVerified))
    .Then(RefuseIf(ctx.retriesUsed >= p.money.maxRetriesPerPayment, MaxRetriesReached))
    .Then(RetryGapFinding(action, ctx, p))
  }

  function MaxConcession(ctx: GateContext, p: PolicyBundle): Paise {
    ctx.amount * p.budgets.maxConcessionPctOfAmount / 100
  }

  function ConcessionFinding(action: ProposedAction, ctx: GateContext, p: PolicyBundle): Finding {
    var asked := action.args.valuePaise;
    RefuseIf(asked > MaxConcession(ctx, p), ConcessionExceedsCap(MaxConcession(ctx, p), asked))
    .Then(RefuseIf(ctx.amount >= p.budgets.approvalRequiredAbove && !action.args.humanApproved,
                   HumanApprovalRequired))
  }

  function MoneyFinding(action: ProposedAction, ctx: GateContext, p: PolicyBundle): Finding {
    match action.tool
    case RetryPayment => RetryFinding(action, ctx, p)
    case CreatePaymentLink => RouteAroundFinding(ctx, p)
    case RequestMandateReauth =>
      RouteAroundFinding(ctx, p).Then(RefuseIf(ctx.hasValidMandate, MandateAlreadyValid))
    case OfferConcession => RouteAroundFinding(ctx, p).Then(ConcessionFinding(action, ctx, p))
    case _ => Pass
  }

  function StandingFinding(action: ProposedAction, ctx: GateContext, p: PolicyBundle): Finding {
    var channel := action.args.channel;
    RefuseIf(ctx.optedOut, OptedOut)
    .Then(RefuseIf(p.contact.honourDndRegistry && ctx.onDndRegistry, OnDndRegistry))
    .Then(RefuseIf(p.contact.requireChannelConsent && channel !in ctx.consent, NoChannelConsent(channel)))
    .Then(RefuseIf(action.args.recipientIsThirdParty, ThirdPartyContact))
    .Then(RefuseIf(ctx.disputeOpen, DisputeIsOpen))
    .Then(RefuseIf(ctx.activePromiseUntil.Some? && ctx.now < ctx.activePromiseUntil.value, PromiseActive))
    .Then(RefuseIf(!DispositionOf(ctx.rootCause).contactCustomer, ContactNotIndicated(ctx.rootCause)))
  }

  function RungOrderingFinding(requested: int, ctx: GateContext, p: PolicyBundle): Finding {
    RefuseIf(requested > ctx.escalationRung + 1, SkipRungsForbidden(ctx.escalationRung, requested))
    .Then(RefuseIf(RungAt(p.ladder, requested).None?, LadderExhausted))
  }

  function RungCooldownFinding(rung: Rung, ctx: GateContext): Finding {
    if ctx.lastRungAt.Some? && rung.minDaysSincePrevious != 0 then
      var earliest := ctx.lastRungAt.value + rung.minDaysSincePrevious * DAY;
      RefuseIf(ctx.now < earliest, RungCooldownActive(earliest))
    else Pass
  }

  function RungPreconditionsFinding(rung: Rung, ctx: GateContext, channel: Channel): Finding {
    var unmet := FirstUnmet(rung.preconditions, ctx, channel);
    if unmet.Some? then Refuse(PreconditionFailed(unmet.value)) else Pass
  }

  function LadderFinding(action: ProposedAction, ctx: GateContext, p: PolicyBundle): Finding {
    var channel := action.args.channel;
    var requested := RequestedRung(action, ctx);
    var found := RungAt(p.ladder, requested);
    var ordering := RungOrderingFinding(requested, ctx, p);
    if ordering != Pass || found.None? then ordering
    else
      RefuseIf(found.value.channels != {} && channel !in found.value.channels, ChannelNotPermitted(requested, channel))
      .Then(RungCooldownFinding(found.value, ctx))
      .Then(RungPreconditionsFinding(found.value, ctx, channel))
  }

  function CooldownFinding(ctx: GateContext, caps: FrequencyCaps): Finding {
    var last := LastContact(ctx.history);
    RefuseIf(last.Some? && !last.value.responded
             && ctx.now - last.value.at < caps.cooldownAfterNoResponseHours * HOUR, CooldownAfterNoResponse)
  }

  function FrequencyFinding(channel: Channel, ctx: GateContext, caps: FrequencyCaps): Finding {
    RefuseIf(ctx.contactsUsed >= caps.contactsPerEpisode, EpisodeContactCap)
    .Then(RefuseIf(ContactsSince(ctx.history, ctx.now - DAY, false) >= caps.messagesPerDay, DailyContactCap))
    .Then(RefuseIf(ContactsSince(ctx.history, ctx.now - 7 * DAY, false) >= caps.messagesPerWeek, WeeklyContactCap))
    .Then(RefuseIf(channel.Voice? && ContactsSince(ctx.history, ctx.now - 7 * DAY, true) >= caps.voiceCallsPerWeek,
                   WeeklyVoiceCap))
    .Then(CooldownFinding(ctx, caps))
  }

  function QuietFinding(action: ProposedAction, ctx: GateContext, p: PolicyBundle): Finding {
    var allowedAt := NextAllowedTime(Target(action, ctx), p.contact.WindowFor(action.args.channel));
    if allowedAt != Target(action, ctx) then Reschedule(allowedAt, QuietHoursReschedule(allowedAt)) else Pass
  }

  /** Consent and suppression first, quiet hours last: the one check that rewrites. */
  function ContactFinding(action: ProposedAction, ctx: GateContext, p: PolicyBundle): Finding {
    StandingFinding(action, ctx, p)
    .Then(LadderFinding(action, ctx, p))
    .Then(FrequencyFinding(action.args.channel, ctx, p.contact.caps))
    .Then(QuietFinding(action, ctx, p))
  }

  /* ----- the names an approval records ----- */

  const BUDGET_CHECKS: seq<Check> := [BudgetActions, BudgetSpend, OrgDailyCap]
  const STANDING_CHECKS: seq<Check> :=
    [OptOut, DndRegistry, ChannelConsent, ThirdParty, DisputeOpen, ActivePromise, DispositionContact]
  const LADDER_CHECKS: seq<Check> := [RungOrdering, RungChannel, RungCooldown, RungPreconditions]

  function MoneyChecks(tool: Tool): seq<Check> {
    match tool
    case RetryPayment => [MandateRequired, NeverRetry, VerifyBeforeRetry, RetryCount, RetryGap]
    case CreatePaymentLink => [NeverRouteAround]
    case RequestMandateReauth => [NeverRouteAround, MandateReauthOnlyWhenAbsent]
    case OfferConcession => [NeverRouteAround, ConcessionCap, ApprovalThreshold]
    case _ => []
  }

  function FrequencyChecks(channel: Channel): seq<Check> {
    [CapEpisode, CapDay, CapWeek] + (if channel.Voice? then [CapVoiceWeek] else []) + [Cooldown]
  }

  function ContactChecks(channel: Channel): seq<Check> {
    STANDING_CHECKS + LADDER_CHECKS + FrequencyChecks(channel) + [QuietHours]
  }

  function ChecksFor(action: ProposedAction): seq<Check> {
    BUDGET_CHECKS + MoneyChecks(action.tool)
    + (if action.tool in CONTACT_ACTIONS then ContactChecks(action.args.channel) else [])
  }

  /* ----- the ruling ----- */

  function Allowed(action: ProposedAction, reasons: seq<Reason>): GateDecision {
    GateDecision(Allow, Some(action), reasons)
  }

  function Denied(why: Refusal): GateDecision {
    GateDecision(Deny, None, [Because(why)])
  }

  function Rewritten(action: ProposedAction, at: Instant, why: Refusal): GateDecision {
    GateDecision(Modify, Some(action.(scheduledFor := Some(at))), [Because(why)])
  }

  function Passed(checks: seq<Check>): (r: seq<Reason>)
    ensures |r| == |checks| && forall i | 0 <= i < |r| :: r[i] == Checked(checks[i])
  {
    seq(|checks|, i requires 0 <= i < |checks| => Checked(checks[i]))
  }

  function DecisionOn(f: Finding, checks: seq<Check>, action: ProposedAction): GateDecision {
    match f
    case Pass => Allowed(action, Passed(checks))
    case Refuse(why) => Denied(why)
    case Reschedule(at, why) => Rewritten(action, at, why)
  }

  function Examine(action: ProposedAction, ctx: GateContext, p: PolicyBundle): Finding {
    BudgetFinding(ctx, p)
    .Then(MoneyFinding(action, ctx, p))
    .Then(if action.tool in CONTACT_ACTIONS then ContactFinding(action, ctx, p) else Pass)
  }

  /** The specification of the gate: exits are never gated, the kill switch comes next,
      and after that the first check that does not pass decides. */
  function Ruling(action: ProposedAction, ctx: GateContext, p: PolicyBundle): (d: GateDecision)
    ensures d.verdict == Deny <==> d.action.None?
  {
    if action.tool in ALWAYS_ALLOWED then Allowed(action, [ExitAlwaysAllowed])
    else if ctx.killSwitchEngaged then Denied(KillSwitchEngaged)
    else DecisionOn(Examine(action, ctx, p), ChecksFor(action), action)
  }

  /** The names of the checks made so far, shared by the gate's methods. */
  class CheckLog {
    var names: seq<Check>

    constructor ()
      ensures names == []
    {
      names := [];
    }

    method Append(c: Check)
      modifies this
      ensures names == old(names) + [c]
    {
      names := names + [c];
    }
  }

  /** What a stage of the gate owes: a decision exactly when one of its checks does not
      pass, namely the first one's, and otherwise the stage's checks added to the log. */
  ghost predicate StageDone(f: Finding, checks: seq<Check>, d: Option<GateDecision>, before: seq<Check>,
                            after: seq<Check>, action: ProposedAction)
  {
    if f == Pass then d == None && after == before + checks
    else d == Some(DecisionOn(f, [], action))
  }

  /** The first of three stages that does not pass decides. */
  lemma DecisionInStages(b: Finding, m: Finding, c: Finding, checks: seq<Check>, action: ProposedAction)
    ensures b != Pass ==> DecisionOn(b.Then(m).Then(c), checks, action) == DecisionOn(b, [], action)
    ensures b == Pass && m != Pass ==> DecisionOn(b.Then(m).Then(c), checks, action) == DecisionOn(m, [], action)
    ensures b == Pass && m == Pass ==> DecisionOn(b.Then(m).Then(c), checks, action) == DecisionOn(c, checks, action)
  {
  }

  /** The stages of a ruling that is neither an exit nor stopped by the kill switch. */
  lemma RulingStages(action: ProposedAction, ctx: GateContext, p: PolicyBundle)
    requires action.tool !in ALWAYS_ALLOWED && !ctx.killSwitchEngaged
    ensures BudgetFinding(ctx, p) != Pass ==> Ruling(action, ctx, p) == DecisionOn(BudgetFinding(ctx, p), [], action)
    ensures BudgetFinding(ctx, p) == Pass && MoneyFinding(action, ctx, p) != Pass ==>
              Ruling(action, ctx, p) == DecisionOn(MoneyFinding(action, ctx, p), [], action)
    ensures BudgetFinding(ctx, p) == Pass && MoneyFinding(action, ctx, p) == Pass ==>
              Ruling(action, ctx, p) ==
              if action.tool in CONTACT_ACTIONS
              then DecisionOn(ContactFinding(action, ctx, p),
                              BUDGET_CHECKS + MoneyChecks(action.tool) + ContactChecks(action.args.channel), action)
              else Allowed(action, Passed(BUDGET_CHECKS + MoneyChecks(action.tool)))
  {
    var c := if action.tool in CONTACT_ACTIONS then ContactFinding(action, ctx, p) else Pass;
    DecisionInStages(BudgetFinding(ctx, p), MoneyFinding(action, ctx, p), c, ChecksFor(action), action);
    var checks := BUDGET_CHECKS + MoneyChecks(action.tool);
    assert checks + [] == checks;
  }

  lemma MoneyStageIsEmpty(action: ProposedAction, ctx: GateContext, p: PolicyBundle)
    requires action.tool !in MONEY_ACTIONS
    ensures MoneyFinding(action, ctx, p) == Pass && MoneyChecks(action.tool) == []
  {
  }

  class PolicyGate {
    const p: PolicyBundle

    constructor (p: PolicyBundle)
      ensures this.p == p
    {
      this.p := p;
    }

    method Evaluate(action: ProposedAction, ctx: GateContext) returns (decision: GateDecision)
      ensures decision == Ruling(action, ctx, p)
    {
      var checked := new CheckLog();
      if action.tool in ALWAYS_ALLOWED {
        return Allowed(action, [ExitAlwaysAllowed]);
      }
      if ctx.killSwitchEngaged {
        return Denied(KillSwitchEngaged);
      }
      RulingStages(action, ctx, p);
      var d := CheckBudgets(action, ctx, checked);
      if d.Some? {
        return d.value;
      }
      if action.tool in MONEY_ACTIONS {
        d := CheckMoney(action, ctx, checked);
        if d.Some? {
          return d.value;
        }
      } else {
        MoneyStageIsEmpty(action, ctx, p);
      }
      assert checked.names == BUDGET_CHECKS + MoneyChecks(action.tool);
      if action.tool in CONTACT_ACTIONS {
        decision := CheckContact(action, ctx, checked);
        return;
      }
      return Allowed(action, Passed(checked.names));
    }

    method CheckBudgets(action: ProposedAction, ctx: GateContext, checked: CheckLog) returns (d: Option<GateDecision>)
      modifies checked
      ensures StageDone(BudgetFinding(ctx, p), BUDGET_CHECKS, d, old(checked.names), checked.names, action)
    {
      checked.Append(BudgetActions);
      if ctx.actionsUsed >= p.budgets.maxActionsPerEpisode {
        return Some(Denied(BudgetActionsExhausted));
      }
      checked.Append(BudgetSpend);
      if ctx.spend >= p.budgets.maxSpendPerEpisode {
        return Some(Denied(BudgetSpendExhausted));
      }
      checked.Append(OrgDailyCap);
      if ctx.orgSpendToday >= p.budgets.dailyOrgSpendCap {
        return Some(Denied(OrgDailySpendCap));
      }
      return None;
    }

    method CheckMoney(action: ProposedAction, ctx: GateContext, checked: CheckLog) returns (d: Option<GateDecision>)
      requires action.tool in MONEY_ACTIONS
      modifies checked
      ensures StageDone(MoneyFinding(action, ctx, p), MoneyChecks(action.tool), d, old(checked.names), checked.names, action)
    {
      if action.tool != RetryPayment {
        checked.Append(NeverRouteAround);
        if ctx.rootCause in p.money.neverRouteAroundCauses {
          return Some(Denied(NeverRouteAroundCause(ctx.rootCause)));
        }
      }
      if action.tool == RetryPayment {
        checked.Append(MandateRequired);
        if !ctx.hasValidMandate {
          return Some(Denied(NoValidMandate));
        }
        checked.Append(NeverRetry);
        if ctx.rootCause in p.money.neverRetryCauses || !DispositionOf(ctx.rootCause).retryAllowed {
          return Some(Denied(NeverRetryCause(ctx.rootCause)));
        }
        if ctx.confidence < 0.75 {
          var inPlay := CauseInPlay(ctx, p.money.neverRetryCauses);
          if inPlay.Some? {
            return Some(Denied(inPlay.value));
          }
        }
        checked.Append(VerifyBeforeRetry);
        if ctx.rootCause in p.money.verifyBeforeRetryCauses && !ctx.captureVerified {
          return Some(Denied(CaptureNotVerified));
        }
        checked.Append(RetryCount);
        if ctx.retriesUsed >= p.money.maxRetriesPerPayment {
          return Some(Denied(MaxRetriesReached));
        }
        checked.Append(RetryGap);
        if ctx.lastRetryAt.Some? {
          var gap := p.money.minGapBetweenRetriesHours * HOUR;
          if Target(action, ctx) - ctx.lastRetryAt.value < gap {
            return Some(Rewritten(action, ctx.lastRetryAt.value + gap, RetryGapTooShort));
          }
        }
      }
      if action.tool == RequestMandateReauth {
        checked.Append(MandateReauthOnlyWhenAbsent);
        if ctx.hasValidMandate {
          return Some(Denied(MandateAlreadyValid));
        }
      }
      if action.tool == OfferConcession {
        checked.Append(ConcessionCap);
        var most := ctx.amount * p.budgets.maxConcessionPctOfAmount / 100;
        if action.args.valuePaise > most {
          return Some(Denied(ConcessionExceedsCap(most, action.args.valuePaise)));
        }
        checked.Append(ApprovalThreshold);
        if ctx.amount >= p.budgets.approvalRequiredAbove && !action.args.humanApproved {
          return Some(Denied(HumanApprovalRequired));
        }
      }
      return None;
    }

    method CheckStanding(action: ProposedAction, ctx: GateContext, checked: CheckLog) returns (d: Option<GateDecision>)
      modifies checked
      ensures StageDone(StandingFinding(action, ctx, p), STANDING_CHECKS, d, old(checked.names), checked.names, action)
    {
      var channel := action.args.channel;
      checked.Append(OptOut);
      if ctx.optedOut {
        return Some(Denied(OptedOut));
      }
      checked.Append(DndRegistry);
      if p.contact.honourDndRegistry && ctx.onDndRegistry {
        return Some(Denied(OnDndRegistry));
      }
      checked.Append(ChannelConsent);
      if p.contact.requireChannelConsent && channel !in ctx.consent {
        return Some(Denied(NoChannelConsent(channel)));
      }
      checked.Append(ThirdParty);
      if action.args.recipientIsThirdParty {
        return Some(Denied(ThirdPartyContact));
      }
      checked.Append(DisputeOpen);
      if ctx.disputeOpen {
        return Some(Denied(DisputeIsOpen));
      }
      checked.Append(ActivePromise);
      if ctx.activePromiseUntil.Some? && ctx.now < ctx.activePromiseUntil.value {
        return Some(Denied(PromiseActive));
      }
      checked.Append(DispositionContact);
      if !DispositionOf(ctx.rootCause).contactCustomer {
        return Some(Denied(ContactNotIndicated(ctx.rootCause)));
      }
      return None;
    }

    method CheckContact(action: ProposedAction, ctx: GateContext, checked: CheckLog) returns (decision: GateDecision)
      modifies checked
      ensures decision == DecisionOn(ContactFinding(action, ctx, p),
                                     old(checked.names) + ContactChecks(action.args.channel), action)
    {
      var d := CheckStanding(action, ctx, checked);
      if d.Some? {
        return d.value;
      }
      d := CheckLadder(action, ctx, checked);
      if d.Some? {
        return d.value;
      }
      d := CheckFrequency(action, ctx, checked);
      if d.Some? {
        return d.value;
      }
      d := CheckQuietHours(action, ctx, checked);
      if d.Some? {
        return d.value;
      }
      return Allowed(action, Passed(checked.names));
    }

    method CheckQuietHours(action: ProposedAction, ctx: GateContext, checked: CheckLog) returns (d: Option<GateDecision>)
      modifies checked
      ensures StageDone(QuietFinding(action, ctx, p), [QuietHours], d, old(checked.names), checked.names, action)
    {
      checked.Append(QuietHours);
      var allowedAt := NextAllowedTime(Target(action, ctx), p.contact.WindowFor(action.args.channel));
      if allowedAt != Target(action, ctx) {
        return Some(Rewritten(action, allowedAt, QuietHoursReschedule(allowedAt)));
      }
      return None;
    }

    method CheckLadder(action: ProposedAction, ctx: GateContext, checked: CheckLog) returns (d: Option<GateDecision>)
      modifies checked
      ensures StageDone(LadderFinding(action, ctx, p), LADDER_CHECKS, d, old(checked.names), checked.names, action)
    {
      var channel := action.args.channel;
      var requested := RequestedRung(action, ctx);
      checked.Append(RungOrdering);
      if requested > ctx.escalationRung + 1 {
        return Some(Denied(SkipRungsForbidden(ctx.escalationRung, requested)));
      }
      var found := RungAt(p.ladder, requested);
      if found.None? {
        return Some(Denied(LadderExhausted));
      }
      var rung := found.value;
      checked.Append(RungChannel);
      if rung.channels != {} && channel !in rung.channels {
        return Some(Denied(ChannelNotPermitted(requested, channel)));
      }
      checked.Append(RungCooldown);
      if ctx.lastRungAt.Some? && rung.minDaysSincePrevious != 0 {
        var earliest := ctx.lastRungAt.value + rung.minDaysSincePrevious * DAY;
        if ctx.now < earliest {
          return Some(Denied(RungCooldownActive(earliest)));
        }
      }
      checked.Append(RungPreconditions);
      for k := 0 to |rung.preconditions|
        invariant checked.names == old(checked.names) + LADDER_CHECKS
        invariant FirstUnmet(rung.preconditions, ctx, channel) == FirstUnmet(rung.preconditions[k..], ctx, channel)
      {
        if !PreconditionMet(rung.preconditions[k], ctx, channel) {
          return Some(Denied(PreconditionFailed(rung.preconditions[k])));
        }
      }
      return None;
    }

    method CheckFrequency(action: ProposedAction, ctx: GateContext, checked: CheckLog) returns (d: Option<GateDecision>)
      modifies checked
      ensures StageDone(FrequencyFinding(action.args.channel, ctx, p.contact.caps), FrequencyChecks(action.args.channel), d, old(checked.names), checked.names, action)
    {
      var caps := p.contact.caps;
      var channel := action.args.channel;
      checked.Append(CapEpisode);
      if ctx.contactsUsed >= caps.contactsPerEpisode {
        return Some(Denied(EpisodeContactCap));
      }
      checked.Append(CapDay);
      if ContactsSince(ctx.history, ctx.now - DAY, false) >= caps.messagesPerDay {
        return Some(Denied(DailyContactCap));
      }
      checked.Append(CapWeek);
      if ContactsSince(ctx.history, ctx.now - 7 * DAY, false) >= caps.messagesPerWeek {
        return Some(Denied(WeeklyContactCap));
      }
      if channel.Voice? {
        checked.Append(CapVoiceWeek);
        if ContactsSince(ctx.history, ctx.now - 7 * DAY, true) >= caps.voiceCallsPerWeek {
          return Some(Denied(WeeklyVoiceCap));
        }
      }
      checked.Append(Cooldown);
      var last := LastContact(ctx.history);
      if last.Some? && !last.value.responded {
        if ctx.now - last.value.at < caps.cooldownAfterNoResponseHours * HOUR {
          return Some(Denied(CooldownAfterNoResponse));
        }
      }
      return None;
    }
  }
}
