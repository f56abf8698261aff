/** The reasons the gate gives: for every refusal exactly when it is the one given, and for an
    approval which checks it lists. */
module GateReasons {
  import opened Domain
  import opened Policy
  import opened Gate
  import opened GateProperties
  import opened GateExactness

  /* ----- money ----- */

  predicate RouteIsOpen(action: ProposedAction, ctx: GateContext, p: PolicyBundle) {
    action.tool in MONEY_ACTIONS - {RetryPayment} ==> ctx.rootCause !in p.money.neverRouteAroundCauses
  }

  predicate RootMayBeRetried(ctx: GateContext, p: PolicyBundle) {
    ctx.rootCause !in p.money.neverRetryCauses && ctx.rootCause !in NEVER_RETRY
  }

  /** When the money policy refuses, and gives this reason. */
  predicate MoneyRefuses(action: ProposedAction, ctx: GateContext, p: PolicyBundle, why: Refusal) {
    var retry, never := action.tool == RetryPayment, p.money.neverRetryCauses;
    match why
    case NeverRouteAroundCause(cause) => cause == ctx.rootCause && !RouteIsOpen(action, ctx, p)
    case NoValidMandate => retry && !ctx.hasValidMandate
    case NeverRetryCause(cause) => retry && ctx.hasValidMandate && cause == ctx.rootCause && !RootMayBeRetried(ctx, p)
    case AlternativeNeverRetryable(fromHypothesis, candidate, confidence) =>
      && retry && ctx.hasValidMandate && RootMayBeRetried(ctx, p)
      && confidence == ctx.confidence && confidence < 0.75 && candidate in never
      && (if ctx.alternativeCause.Some? && ctx.alternativeCause.value in never
          then !fromHypothesis && Some(candidate) == ctx.alternativeCause
          else fromHypothesis && Some(candidate) == ctx.riskHypothesis)
    case CaptureNotVerified =>
      && retry && ctx.hasValidMandate && !RetryForbidden(ctx, never)
      && ctx.rootCause in p.money.verifyBeforeRetryCauses && !ctx.captureVerified
    case MaxRetriesReached =>
      && retry && ctx.hasValidMandate && !RetryForbidden(ctx, never)
      && (ctx.rootCause in p.money.verifyBeforeRetryCauses ==> ctx.captureVerified)
      && p.money.maxRetriesPerPayment <= ctx.retriesUsed
    case MandateAlreadyValid => action.tool == RequestMandateReauth && RouteIsOpen(action, ctx, p) && ctx.hasValidMandate
    case ConcessionExceedsCap(max, asked) =>
      var allowed := ctx.amount * p.budgets.maxConcessionPctOfAmount;
      && action.tool == OfferConcession && RouteIsOpen(action, ctx, p)
      && asked == action.args.valuePaise && allowed < 100 * asked && 100 * max <= allowed < 100 * max + 100
    case HumanApprovalRequired =>
      && action.tool == OfferConcession && RouteIsOpen(action, ctx, p)
      && 100 * action.args.valuePaise <= ctx.amount * p.budgets.maxConcessionPctOfAmount
      && p.budgets.approvalRequiredAbove <= ctx.amount && !action.args.humanApproved
    case _ => false
  }

  predicate BudgetRefuses(ctx: GateContext, p: PolicyBundle, why: Refusal) {
    var b := p.budgets;
    match why
    case BudgetActionsExhausted => b.maxActionsPerEpisode <= ctx.actionsUsed
    case BudgetSpendExhausted => ctx.actionsUsed < b.maxActionsPerEpisode && b.maxSpendPerEpisode <= ctx.spend
    case OrgDailySpendCap =>
      && ctx.actionsUsed < b.maxActionsPerEpisode && ctx.spend < b.maxSpendPerEpisode
      && b.dailyOrgSpendCap <= ctx.orgSpendToday
    case _ => false
  }

  /* ----- contact ----- */

  /** Whom not to contact, in the order it is asked. */
  predicate StandingRefuses(action: ProposedAction, ctx: GateContext, p: PolicyBundle, why: Refusal) {
    var unlisted := !(p.contact.honourDndRegistry && ctx.onDndRegistry);
    var consented := p.contact.requireChannelConsent ==> action.args.channel in ctx.consent;
    var free := ctx.activePromiseUntil.Some? ==> ctx.activePromiseUntil.value <= ctx.now;
    match why
    case OptedOut => ctx.optedOut
    case OnDndRegistry => !ctx.optedOut && !unlisted
    case NoChannelConsent(channel) => !ctx.optedOut && unlisted && channel == action.args.channel && !consented
    case ThirdPartyContact => !ctx.optedOut && unlisted && consented && action.args.recipientIsThirdParty
    case DisputeIsOpen =>
      !ctx.optedOut && unlisted && consented && !action.args.recipientIsThirdParty && ctx.disputeOpen
    case PromiseActive =>
      !ctx.optedOut && unlisted && consented && !action.args.recipientIsThirdParty && !ctx.disputeOpen && !free
    case ContactNotIndicated(cause) =>
      && !ctx.optedOut && unlisted && consented && !action.args.recipientIsThirdParty && !ctx.disputeOpen && free
      && cause == ctx.rootCause && !DispositionOf(cause).contactCustomer
    case _ => false
  }

  predicate ChannelFits(rung: Rung, channel: Channel) {
    rung.channels != {} ==> channel in rung.channels
  }

  /** The wait a rung asks for after the one before it. */
  function WaitOver(rung: Rung, ctx: GateContext): Option<Instant> {
    if ctx.lastRungAt.Some? && rung.minDaysSincePrevious > 0
    then Some(ctx.lastRungAt.value + rung.minDaysSincePrevious * DAY) else None
  }

  predicate Waited(rung: Rung, ctx: GateContext) {
    WaitOver(rung, ctx).Some? ==> WaitOver(rung, ctx).value <= ctx.now
  }

  predicate FirstUnmetIs(rung: Rung, ctx: GateContext, channel: Channel, pre: Precondition) {
    exists i | 0 <= i < |rung.preconditions| ::
      && rung.preconditions[i] == pre && !PreconditionMet(pre, ctx, channel)
      && forall j | 0 <= j < i :: PreconditionMet(rung.preconditions[j], ctx, channel)
  }

  predicate LadderRefuses(action: ProposedAction, ctx: GateContext, p: PolicyBundle, why: Refusal) {
    var requested := if action.args.rung.None? then ctx.escalationRung + 1 else action.args.rung.value;
    var rung := RungAt(p.ladder, requested);
    var channel := action.args.channel;
    match why
    case SkipRungsForbidden(at, asked) => at == ctx.escalationRung && asked == requested && requested > at + 1
    case LadderExhausted => requested <= ctx.escalationRung + 1 && rung.None?
    case ChannelNotPermitted(number, refused) =>
      && requested <= ctx.escalationRung + 1 && rung.Some? && number == requested && refused == channel
      && !ChannelFits(rung.value, channel)
    case RungCooldownActive(earliest) =>
      && requested <= ctx.escalationRung + 1 && rung.Some? && ChannelFits(rung.value, channel)
      && WaitOver(rung.value, ctx) == Some(earliest) && ctx.now < earliest
    case PreconditionFailed(pre) =>
      && requested <= ctx.escalationRung + 1 && rung.Some? && ChannelFits(rung.value, channel) && Waited(rung.value, ctx)
      && FirstUnmetIs(rung.value, ctx, channel, pre)
    case _ => false
  }

  predicate FrequencyRefuses(channel: Channel, ctx: GateContext, caps: FrequencyCaps, why: Refusal) {
    var today := ContactsSince(ctx.history, ctx.now - DAY, false) < caps.messagesPerDay;
    var thisWeek := ContactsSince(ctx.history, ctx.now - 7 * DAY, false) < caps.messagesPerWeek;
    var calls := channel == Voice ==> ContactsSince(ctx.history, ctx.now - 7 * DAY, true) < caps.voiceCallsPerWeek;
    match why
    case EpisodeContactCap => caps.contactsPerEpisode <= ctx.contactsUsed
    case DailyContactCap => ctx.contactsUsed < caps.contactsPerEpisode && !today
    case WeeklyContactCap => ctx.contactsUsed < caps.contactsPerEpisode && today && !thisWeek
    case WeeklyVoiceCap => ctx.contactsUsed < caps.contactsPerEpisode && today && thisWeek && !calls
    case CooldownAfterNoResponse =>
      && ctx.contactsUsed < caps.contactsPerEpisode && today && thisWeek && calls
      && ctx.history != [] && !LastContact(ctx.history).value.responded
      && ctx.now - LastContact(ctx.history).value.at < caps.cooldownAfterNoResponseHours * HOUR
    case _ => false
  }

  predicate ContactRefuses(action: ProposedAction, ctx: GateContext, p: PolicyBundle, why: Refusal) {
    || StandingRefuses(action, ctx, p, why)
    || (MayBeContacted(action, ctx, p) && LadderRefuses(action, ctx, p, why))
    || (&& MayBeContacted(action, ctx, p) && RungPermits(action, ctx, p)
        && FrequencyRefuses(action.args.channel, ctx, p.contact.caps, why))
  }

  /* ----- the one reason given ----- */

  predicate RefusedBecause(action: ProposedAction, ctx: GateContext, p: PolicyBundle, why: Refusal) {
    && action.tool !in ALWAYS_ALLOWED
    && if ctx.killSwitchEngaged then why == KillSwitchEngaged
       else
         || BudgetRefuses(ctx, p, why)
         || (WithinBudgets(ctx, p) && MoneyRefuses(action, ctx, p, why))
         || (&& WithinBudgets(ctx, p) && MoneyPermits(action, ctx, p) && action.tool in CONTACT_ACTIONS
             && ContactRefuses(action, ctx, p, why))
  }

  lemma BudgetReason(ctx: GateContext, p: PolicyBundle, why: Refusal)
    ensures BudgetFinding(ctx, p) == Refuse(why) <==> BudgetRefuses(ctx, p, why)
  {
  }

  lemma ConcessionReason(action: ProposedAction, ctx: GateContext, p: PolicyBundle, why: Refusal)
    requires action.tool == OfferConcession
    ensures MoneyFinding(action, ctx, p) == Refuse(why) <==> MoneyRefuses(action, ctx, p, why)
  {
  }

  lemma RetryReason(action: ProposedAction, ctx: GateContext, p: PolicyBundle, why: Refusal)
    requires action.tool == RetryPayment
    ensures MoneyFinding(action, ctx, p) == Refuse(why) <==> MoneyRefuses(action, ctx, p, why)
  {
    assert DispositionOf(ctx.rootCause).retryAllowed <==> ctx.rootCause !in NEVER_RETRY;
  }

  lemma MoneyReason(action: ProposedAction, ctx: GateContext, p: PolicyBundle, why: Refusal)
    ensures MoneyFinding(action, ctx, p) == Refuse(why) <==> MoneyRefuses(action, ctx, p, why)
  {
    if action.tool == OfferConcession {
      ConcessionReason(action, ctx, p, why);
    } else if action.tool == RetryPayment {
      RetryReason(action, ctx, p, why);
    }
  }

  lemma StandingReason(action: ProposedAction, ctx: GateContext, p: PolicyBundle, why: Refusal)
    ensures StandingFinding(action, ctx, p) == Refuse(why) <==> StandingRefuses(action, ctx, p, why)
  {
  }

  lemma {:induction false} UnmetReason(pres: seq<Precondition>, ctx: GateContext, channel: Channel, pre: Precondition)
    ensures FirstUnmet(pres, ctx, channel) == Some(pre) <==>
            exists i | 0 <= i < |pres| ::
              && pres[i] == pre && !PreconditionMet(pre, ctx, channel)
              && forall j | 0 <= j < i :: PreconditionMet(pres[j], ctx, channel)
  {
    if pres != [] && PreconditionMet(pres[0], ctx, channel) {
      UnmetReason(pres[1..], ctx, channel, pre);
      if i :| 0 <= i < |pres| && pres[i] == pre && !PreconditionMet(pre, ctx, channel)
              && forall j | 0 <= j < i :: PreconditionMet(pres[j], ctx, channel) {
        assert pres[1..][i - 1] == pre;
        assert forall j | 0 <= j < i - 1 :: pres[1..][j] == pres[j + 1];
      }
      if i :| 0 <= i < |pres[1..]| && pres[1..][i] == pre && !PreconditionMet(pre, ctx, channel)
              && forall j | 0 <= j < i :: PreconditionMet(pres[1..][j], ctx, channel) {
        assert pres[i + 1] == pre;
        assert forall j | 0 < j < i + 1 :: pres[j] == pres[1..][j - 1];
      }
    }
  }

  lemma LadderReason(action: ProposedAction, ctx: GateContext, p: PolicyBundle, why: Refusal)
    ensures LadderFinding(action, ctx, p) == Refuse(why) <==> LadderRefuses(action, ctx, p, why)
  {
    var rung := RungAt(p.ladder, RequestedRung(action, ctx));
    if rung.Some? && why.PreconditionFailed? {
      UnmetReason(rung.value.preconditions, ctx, action.args.channel, why.pre);
    }
  }

  lemma FrequencyReason(channel: Channel, ctx: GateContext, caps: FrequencyCaps, why: Refusal)
    ensures FrequencyFinding(channel, ctx, caps) == Refuse(why) <==> FrequencyRefuses(channel, ctx, caps, why)
  {
  }

  lemma ContactReason(action: ProposedAction, ctx: GateContext, p: PolicyBundle, why: Refusal)
    ensures ContactFinding(action, ctx, p) == Refuse(why) <==> ContactRefuses(action, ctx, p, why)
  {
    StandingReason(action, ctx, p, why);
    LadderReason(action, ctx, p, why);
    FrequencyReason(action.args.channel, ctx, p.contact.caps, why);
    StandingExactly(action, ctx, p);
    LadderExactly(action, ctx, p);
    FrequencyExactly(action.args.channel, ctx, p.contact.caps);
    NoReasonToPass(action, ctx, p, why);
  }

  /** A check that passes gives no reason. */
  lemma NoReasonToPass(action: ProposedAction, ctx: GateContext, p: PolicyBundle, why: Refusal)
    ensures MayBeContacted(action, ctx, p) ==> !StandingRefuses(action, ctx, p, why)
    ensures RungPermits(action, ctx, p) ==> !LadderRefuses(action, ctx, p, why)
  {
    StandingReason(action, ctx, p, why);
    LadderReason(action, ctx, p, why);
    StandingExactly(action, ctx, p);
    LadderExactly(action, ctx, p);
  }

  /** The gate denies an action for a reason exactly when that reason applies and none that is
      asked before it does. */
  lemma DeniedExactly(action: ProposedAction, ctx: GateContext, p: PolicyBundle, why: Refusal)
    ensures Ruling(action, ctx, p) == GateDecision(Deny, None, [Because(why)]) <==> RefusedBecause(action, ctx, p, why)
  {
    if action.tool !in ALWAYS_ALLOWED && !ctx.killSwitchEngaged {
      RulingStages(action, ctx, p);
      BudgetReason(ctx, p, why);
      MoneyReason(action, ctx, p, why);
      ContactReason(action, ctx, p, why);
      BudgetsExactly(ctx, p);
      MoneyExactly(action, ctx, p);
      DeniedByStage(action, ctx, p, why);
    }
  }

  lemma DeniedByStage(action: ProposedAction, ctx: GateContext, p: PolicyBundle, why: Refusal)
    requires action.tool !in ALWAYS_ALLOWED && !ctx.killSwitchEngaged
    ensures Ruling(action, ctx, p) == Denied(why) <==>
            || BudgetFinding(ctx, p) == Refuse(why)
            || (BudgetFinding(ctx, p) == Pass && MoneyFinding(action, ctx, p) == Refuse(why))
            || (&& BudgetFinding(ctx, p) == Pass && MoneyFinding(action, ctx, p) == Pass
                && action.tool in CONTACT_ACTIONS && ContactFinding(action, ctx, p) == Refuse(why))
  {
    RulingStages(action, ctx, p);
    BudgetsExactly(ctx, p);
  }

  /* ----- what an approval lists ----- */

  predicate IsBudgetCheck(check: Check) {
    check == BudgetActions || check == BudgetSpend || check == OrgDailyCap
  }

  predicate IsMoneyCheck(check: Check) {
    || check == NeverRouteAround || check == MandateRequired || check == NeverRetry || check == VerifyBeforeRetry
    || check == RetryCount || check == RetryGap || check == MandateReauthOnlyWhenAbsent || check == ConcessionCap
    || check == ApprovalThreshold
  }

  predicate MoneyCheckApplies(check: Check, tool: Tool) {
    match check
    case NeverRouteAround => tool == CreatePaymentLink || tool == RequestMandateReauth || tool == OfferConcession
    case MandateReauthOnlyWhenAbsent => tool == RequestMandateReauth
    case ConcessionCap => tool == OfferConcession
    case ApprovalThreshold => tool == OfferConcession
    case _ => tool == RetryPayment
  }

  /** Which checks an action that is no exit goes through. */
  predicate Applies(check: Check, action: ProposedAction) {
    if IsBudgetCheck(check) then true
    else if IsMoneyCheck(check) then MoneyCheckApplies(check, action.tool)
    else action.tool in CONTACT_ACTIONS && (check == CapVoiceWeek ==> action.args.channel == Voice)
  }

  lemma MoneyChecksExactly(tool: Tool, check: Check)
    ensures check in MoneyChecks(tool) <==> IsMoneyCheck(check) && MoneyCheckApplies(check, tool)
  {
  }

  lemma ContactChecksExactly(channel: Channel, check: Check)
    ensures check in ContactChecks(channel) <==>
            !IsBudgetCheck(check) && !IsMoneyCheck(check) && (check == CapVoiceWeek ==> channel == Voice)
  {
    StandingChecksExactly(check);
    LadderChecksExactly(check);
    FrequencyChecksExactly(channel, check);
    InFour(check, STANDING_CHECKS, LADDER_CHECKS, FrequencyChecks(channel), [QuietHours]);
    EveryCheckHasItsPlace(check);
  }

  lemma InFour(check: Check, a: seq<Check>, b: seq<Check>, c: seq<Check>, d: seq<Check>)
    ensures check in a + b + c + d <==> check in a || check in b || check in c || check in d
  {
  }

  lemma StandingChecksExactly(check: Check)
    ensures check in STANDING_CHECKS <==>
            check in {OptOut, DndRegistry, ChannelConsent, ThirdParty, DisputeOpen, ActivePromise, DispositionContact}
  {
  }

  lemma LadderChecksExactly(check: Check)
    ensures check in LADDER_CHECKS <==> check in {RungOrdering, RungChannel, RungCooldown, RungPreconditions}
  {
  }

  lemma FrequencyChecksExactly(channel: Channel, check: Check)
    ensures check in FrequencyChecks(channel) <==>
            check in {CapEpisode, CapDay, CapWeek, Cooldown} || (check == CapVoiceWeek && channel == Voice)
  {
  }

  lemma EveryCheckHasItsPlace(check: Check)
    ensures || IsBudgetCheck(check) || IsMoneyCheck(check) || check in {QuietHours, CapVoiceWeek}
            || check in {OptOut, DndRegistry, ChannelConsent, ThirdParty, DisputeOpen, ActivePromise, DispositionContact}
            || check in {RungOrdering, RungChannel, RungCooldown, RungPreconditions}
            || check in {CapEpisode, CapDay, CapWeek, Cooldown}
  {
  }

  lemma ChecksExactly(action: ProposedAction, check: Check)
    ensures check in ChecksFor(action) <==> Applies(check, action)
  {
    MoneyChecksExactly(action.tool, check);
    ContactChecksExactly(action.args.channel, check);
    var contact := if action.tool in CONTACT_ACTIONS then ContactChecks(action.args.channel) else [];
    InFour(check, BUDGET_CHECKS, MoneyChecks(action.tool), contact, []);
    assert BUDGET_CHECKS + MoneyChecks(action.tool) + contact + [] == ChecksFor(action);
    BudgetChecksExactly(check);
  }

  lemma BudgetChecksExactly(check: Check)
    ensures check in BUDGET_CHECKS <==> IsBudgetCheck(check)
  {
  }

  /** An approval lists exactly the checks the action went through; a rewrite says what it
      waits for, and an exit that it is always allowed. */
  lemma ApprovalListsExactly(action: ProposedAction, ctx: GateContext, p: PolicyBundle)
    ensures action.tool in ALWAYS_ALLOWED ==>
              Ruling(action, ctx, p) == GateDecision(Allow, Some(action), [ExitAlwaysAllowed])
    ensures action.tool !in ALWAYS_ALLOWED && Ruling(action, ctx, p).verdict == Allow ==>
              forall check :: Checked(check) in Ruling(action, ctx, p).reasons <==> Applies(check, action)
    ensures Ruling(action, ctx, p).verdict == Modify ==>
              Ruling(action, ctx, p).reasons ==
              [Because(if action.tool == RetryPayment then RetryGapTooShort
                       else QuietHoursReschedule(ApprovedSchedule(action, ctx, p).value))]
  {
    forall check ensures check in ChecksFor(action) <==> Applies(check, action) {
      ChecksExactly(action, check);
    }
  }
}
