/** What the gate can refuse a run, and what it approves it for, in the run's own terms. */
module RunRefusals {
  import opened Domain
  import opened Policy
  import opened Gate
  import opened GateExactness
  import opened GateReasons
  import opened Runner
  import opened RunnerSafety

  /** The diagnosis names this cause; without one it is unknown. */
  predicate Diagnosed(ep: Episode, cause: RootCause) {
    if ep.diagnosis.Some? then ep.diagnosis.value.rootCause == cause else cause == UnknownCause
  }

  /* ----- refusals ----- */

  /** What a refusal says of the run it is given to. The kill switch, the registry, a promise,
      an unverified capture and an unverified ledger never stand in a run's way. */
  predicate MayRefuse(ep: Episode, s: RunState, action: ProposedAction, why: Refusal) {
    match why
    case KillSwitchEngaged => false
    case BudgetActionsExhausted => ep.policy.budgets.maxActionsPerEpisode <= s.result.actionsTaken
    case BudgetSpendExhausted => ep.policy.budgets.maxSpendPerEpisode <= s.result.cost
    case OrgDailySpendCap => ep.policy.budgets.dailyOrgSpendCap == 0
    case _ => MayRefuseMoney(ep, s, action, why) && MayRefuseContact(ep, s, action, why)
  }

  predicate MayRefuseMoney(ep: Episode, s: RunState, action: ProposedAction, why: Refusal) {
    match why
    case NeverRouteAroundCause(cause) => Diagnosed(ep, cause)
    case NeverRetryCause(cause) => Diagnosed(ep, cause) && action.tool == RetryPayment
    case NoValidMandate => action.tool == RetryPayment && Diagnosed(ep, MandateRevoked)
    case MandateAlreadyValid => action.tool == RequestMandateReauth && !Diagnosed(ep, MandateRevoked)
    case AlternativeNeverRetryable(fromHypothesis, candidate, confidence) =>
      && ep.diagnosis.Some? && confidence == ep.diagnosis.value.confidence < 0.75
      && Some(candidate) == if fromHypothesis then ep.diagnosis.value.riskHypothesis else ep.diagnosis.value.alternativeCause
    case CaptureNotVerified => false
    case MaxRetriesReached => ep.policy.money.maxRetriesPerPayment <= s.result.retries
    case _ => true
  }

  predicate MayRefuseContact(ep: Episode, s: RunState, action: ProposedAction, why: Refusal) {
    match why
    case OptedOut => s.result.optedOut
    case OnDndRegistry => false
    case NoChannelConsent(channel) => channel == action.args.channel && channel !in ep.consent
    case DisputeIsOpen => s.result.disputed
    case PromiseActive => false
    case ContactNotIndicated(cause) => Diagnosed(ep, cause)
    case SkipRungsForbidden(at, requested) => at == |s.history| && requested > at + 1
    case RungCooldownActive(earliest) => s.history != [] && s.history[|s.history| - 1].at < earliest
    case PreconditionFailed(pre) => MayFail(ep, s, action.args.channel, pre)
    case EpisodeContactCap => ep.policy.contact.caps.contactsPerEpisode <= s.result.contactsMade
    case CooldownAfterNoResponse => s.history != []
    case _ => true
  }

  predicate MayFail(ep: Episode, s: RunState, channel: Channel, pre: Precondition) {
    match pre
    case ChannelConsentGiven => channel !in ep.consent
    case VoiceConsentGiven => Voice !in ep.consent
    case NoActiveDispute => s.result.disputed
    case NoActivePromise => false
    case B2bOnly => !ep.isBusiness
    case LedgerVerified => false
    case MinAmount(paise) => ep.amount < paise
    case _ => true
  }

  lemma UnmetMayFail(ep: Episode, s: RunState, channel: Channel, pre: Precondition)
    requires !PreconditionMet(pre, Context(ep, s), channel)
    ensures MayFail(ep, s, channel, pre)
  {
  }

  lemma LadderMayRefuse(ep: Episode, s: RunState, action: ProposedAction, why: Refusal)
    requires LadderRefuses(action, Context(ep, s), ep.policy, why)
    ensures MayRefuse(ep, s, action, why)
  {
    if why.PreconditionFailed? {
      UnmetMayFail(ep, s, action.args.channel, why.pre);
    }
  }

  lemma ContactMayRefuse(ep: Episode, s: RunState, action: ProposedAction, why: Refusal)
    requires ContactRefuses(action, Context(ep, s), ep.policy, why)
    ensures MayRefuse(ep, s, action, why)
  {
    if MayBeContacted(action, Context(ep, s), ep.policy) && LadderRefuses(action, Context(ep, s), ep.policy, why) {
      LadderMayRefuse(ep, s, action, why);
    }
  }

  lemma MoneyMayRefuse(ep: Episode, s: RunState, action: ProposedAction, why: Refusal)
    requires MoneyRefuses(action, Context(ep, s), ep.policy, why)
    ensures MayRefuse(ep, s, action, why)
  {
  }

  /** A turn is refused for nothing else than what holds of its run. */
  lemma RefusalsHoldOfTheRun(ep: Episode, s: RunState, why: Refusal)
    requires Proposal(ep, s).Some? && Decision(ep, s) == GateDecision(Deny, None, [Because(why)])
    ensures Proposal(ep, s).value.tool !in ALWAYS_ALLOWED && MayRefuse(ep, s, Proposal(ep, s).value, why)
  {
    var action, ctx := Proposal(ep, s).value, Context(ep, s);
    DeniedExactly(action, ctx, ep.policy, why);
    assert !ctx.killSwitchEngaged;
    if MoneyRefuses(action, ctx, ep.policy, why) {
      MoneyMayRefuse(ep, s, action, why);
    } else if ContactRefuses(action, ctx, ep.policy, why) {
      ContactMayRefuse(ep, s, action, why);
    }
  }

  /* ----- approvals ----- */

  /** What holds of a run when the gate approves more than an exit. */
  predicate HasRoom(ep: Episode, s: RunState) {
    && s.result.actionsTaken < ep.policy.budgets.maxActionsPerEpisode
    && s.result.cost < ep.policy.budgets.maxSpendPerEpisode
    && 0 < ep.policy.budgets.dailyOrgSpendCap
  }

  /** And when it approves a retry: the mandate stands, and nothing diagnosed or in play forbids it. */
  predicate RetryIsSafe(ep: Episode, s: RunState) {
    var never := ep.policy.money.neverRetryCauses;
    && !Diagnosed(ep, MandateRevoked) && s.result.retries < ep.policy.money.maxRetriesPerPayment
    && (forall cause | Diagnosed(ep, cause) :: cause !in never && cause !in NEVER_RETRY)
    && (ep.diagnosis.Some? && ep.diagnosis.value.confidence < 0.75 ==>
          && (ep.diagnosis.value.alternativeCause.Some? ==> ep.diagnosis.value.alternativeCause.value !in never)
          && (ep.diagnosis.value.riskHypothesis.Some? ==> ep.diagnosis.value.riskHypothesis.value !in never))
  }

  predicate MayContact(ep: Episode, s: RunState, action: ProposedAction) {
    && !s.result.optedOut && !s.result.disputed && !action.args.recipientIsThirdParty
    && (ep.policy.contact.requireChannelConsent ==> action.args.channel in ep.consent)
    && s.result.contactsMade < ep.policy.contact.caps.contactsPerEpisode
  }

  lemma RetryApprovedExactly(ep: Episode, s: RunState, action: ProposedAction)
    requires action.tool == RetryPayment
    ensures MoneyPermits(action, Context(ep, s), ep.policy) <==> RetryIsSafe(ep, s)
  {
    assert forall cause :: Diagnosed(ep, cause) <==> cause == Context(ep, s).rootCause;
  }

  lemma ReauthApprovedExactly(ep: Episode, s: RunState, action: ProposedAction)
    requires action.tool == RequestMandateReauth
    ensures MoneyPermits(action, Context(ep, s), ep.policy) <==>
            Diagnosed(ep, MandateRevoked) && MandateRevoked !in ep.policy.money.neverRouteAroundCauses
  {
  }

  lemma ContactApproved(ep: Episode, s: RunState, action: ProposedAction)
    requires ContactPermits(action, Context(ep, s), ep.policy)
    ensures MayContact(ep, s, action)
  {
  }

  /** A run's proposal that is no exit is approved only with room in its budgets, and a retry
      or a mandate renewal exactly when, besides, it is safe or called for; a contact only of
      someone who may still be contacted. */
  lemma ApprovalsHoldOfTheRun(ep: Episode, s: RunState)
    requires Proposal(ep, s).Some? && Proposal(ep, s).value.tool !in ALWAYS_ALLOWED
    ensures var action, approved := Proposal(ep, s).value, Decision(ep, s).verdict != Deny;
            && (approved ==> HasRoom(ep, s))
            && (action.tool == RetryPayment ==> (approved <==> HasRoom(ep, s) && RetryIsSafe(ep, s)))
            && (action.tool == RequestMandateReauth ==>
                  (approved <==> && HasRoom(ep, s) && Diagnosed(ep, MandateRevoked)
                                 && MandateRevoked !in ep.policy.money.neverRouteAroundCauses
                                 && ContactPermits(action, Context(ep, s), ep.policy)))
            && (approved && action.tool in CONTACT_ACTIONS ==> MayContact(ep, s, action))
  {
    var action, ctx := Proposal(ep, s).value, Context(ep, s);
    ApprovedExactly(action, ctx, ep.policy);
    assert WithinBudgets(ctx, ep.policy) <==> HasRoom(ep, s);
    if action.tool == RetryPayment {
      RetryApprovedExactly(ep, s, action);
    }
    if action.tool == RequestMandateReauth {
      ReauthApprovedExactly(ep, s, action);
    }
    if action.tool in CONTACT_ACTIONS && ContactPermits(action, ctx, ep.policy) {
      ContactApproved(ep, s, action);
    }
  }
}
