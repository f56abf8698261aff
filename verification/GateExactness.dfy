/** The gate without its order of checks: which actions are approved, and on what schedule. */
module GateExactness {
  import opened Domain
  import opened Policy
  import opened Gate
  import opened GateProperties

  predicate WithinBudgets(ctx: GateContext, p: PolicyBundle) {
    && ctx.actionsUsed < p.budgets.maxActionsPerEpisode
    && ctx.spend < p.budgets.maxSpendPerEpisode
    && ctx.orgSpendToday < p.budgets.dailyOrgSpendCap
  }

  /** A cause that must never be retried is diagnosed, or still in play. */
  predicate RetryForbidden(ctx: GateContext, never: set<RootCause>) {
    || ctx.rootCause in never
    || ctx.rootCause in NEVER_RETRY
    || (ctx.confidence < 0.75 &&
        ((ctx.alternativeCause.Some? && ctx.alternativeCause.value in never) ||
         (ctx.riskHypothesis.Some? && ctx.riskHypothesis.value in never)))
  }

  /** What the money policy asks of each money action. */
  predicate MoneyPermits(action: ProposedAction, ctx: GateContext, p: PolicyBundle) {
    && (action.tool in MONEY_ACTIONS - {RetryPayment} ==> ctx.rootCause !in p.money.neverRouteAroundCauses)
    && (action.tool == RetryPayment ==>
          && ctx.hasValidMandate
          && !RetryForbidden(ctx, p.money.neverRetryCauses)
          && (ctx.rootCause in p.money.verifyBeforeRetryCauses ==> ctx.captureVerified)
          && ctx.retriesUsed < p.money.maxRetriesPerPayment)
    && (action.tool == RequestMandateReauth ==> !ctx.hasValidMandate)
    && (action.tool == OfferConcession ==>
          && 100 * action.args.valuePaise <= ctx.amount * p.budgets.maxConcessionPctOfAmount
          && (ctx.amount >= p.budgets.approvalRequiredAbove ==> action.args.humanApproved))
  }

  /** Whether this person may be contacted at all, on this channel. */
  predicate MayBeContacted(action: ProposedAction, ctx: GateContext, p: PolicyBundle) {
    && !ctx.optedOut && !ctx.disputeOpen && !action.args.recipientIsThirdParty
    && !(p.contact.honourDndRegistry && ctx.onDndRegistry)
    && (p.contact.requireChannelConsent ==> action.args.channel in ctx.consent)
    && (ctx.activePromiseUntil.Some? ==> ctx.activePromiseUntil.value <= ctx.now)
    && DispositionOf(ctx.rootCause).contactCustomer
  }

  /** Every precondition a rung names, told apart; business hours are nine to six, local time,
      and one that is not recognised never holds. */
  predicate PreconditionsHold(pres: seq<Precondition>, ctx: GateContext, channel: Channel) {
    var minute := LocalTimeOfDay(ctx.now) / MINUTE;
    && (ChannelConsentGiven in pres ==> channel in ctx.consent)
    && (VoiceConsentGiven in pres ==> Voice in ctx.consent)
    && (NoActiveDispute in pres ==> !ctx.disputeOpen)
    && (NoActivePromise in pres && ctx.activePromiseUntil.Some? ==> ctx.activePromiseUntil.value <= ctx.now)
    && (B2bOnly in pres ==> ctx.isBusiness)
    && (LedgerVerified in pres ==> ctx.ledgerVerified)
    && (BusinessHours in pres ==> 540 <= minute < 1080)
    && (forall pre | pre in pres :: pre.MinAmount? ==> pre.paise <= ctx.amount)
    && Unrecognised !in pres
  }

  lemma BusinessMinutes(t: Instant)
    ensures 9 * HOUR <= LocalTimeOfDay(t) < 18 * HOUR <==> 540 <= LocalTimeOfDay(t) / MINUTE < 1080
  {
  }

  lemma PreconditionsExactly(pres: seq<Precondition>, ctx: GateContext, channel: Channel)
    ensures (forall pre | pre in pres :: PreconditionMet(pre, ctx, channel)) <==> PreconditionsHold(pres, ctx, channel)
  {
    BusinessMinutes(ctx.now);
    if PreconditionsHold(pres, ctx, channel) {
      forall pre | pre in pres ensures PreconditionMet(pre, ctx, channel) {
        OnePreconditionHolds(pres, ctx, channel, pre);
      }
    }
  }

  lemma OnePreconditionHolds(pres: seq<Precondition>, ctx: GateContext, channel: Channel, pre: Precondition)
    requires PreconditionsHold(pres, ctx, channel) && pre in pres
    ensures PreconditionMet(pre, ctx, channel)
  {
    BusinessMinutes(ctx.now);
  }

  /** The rung asked for exists, is at most one up, permits the channel, has waited its days
      and has all its preconditions. */
  predicate RungPermits(action: ProposedAction, ctx: GateContext, p: PolicyBundle) {
    && RequestedRung(action, ctx) <= ctx.escalationRung + 1
    && RungAt(p.ladder, RequestedRung(action, ctx)).Some?
    && var rung := RungAt(p.ladder, RequestedRung(action, ctx)).value;
       && (rung.channels != {} ==> action.args.channel in rung.channels)
       && (ctx.lastRungAt.Some? && rung.minDaysSincePrevious > 0 ==>
             ctx.lastRungAt.value + rung.minDaysSincePrevious * DAY <= ctx.now)
       && PreconditionsHold(rung.preconditions, ctx, action.args.channel)
  }

  predicate ContactPermits(action: ProposedAction, ctx: GateContext, p: PolicyBundle) {
    && MayBeContacted(action, ctx, p)
    && RungPermits(action, ctx, p)
    && RoomFor(p.contact.caps, ctx.contactsUsed, ctx.history, action.args.channel.Voice?, ctx.now)
  }

  lemma BudgetsExactly(ctx: GateContext, p: PolicyBundle)
    ensures BudgetFinding(ctx, p) == Pass <==> WithinBudgets(ctx, p)
    ensures !BudgetFinding(ctx, p).Reschedule?
  {
  }

  lemma MoneyExactly(action: ProposedAction, ctx: GateContext, p: PolicyBundle)
    ensures !MoneyFinding(action, ctx, p).Refuse? <==> MoneyPermits(action, ctx, p)
    ensures MoneyFinding(action, ctx, p).Reschedule? ==> action.tool == RetryPayment
  {
    assert DispositionOf(ctx.rootCause).retryAllowed <==> ctx.rootCause !in NEVER_RETRY;
  }

  lemma StandingExactly(action: ProposedAction, ctx: GateContext, p: PolicyBundle)
    ensures StandingFinding(action, ctx, p) == Pass <==> MayBeContacted(action, ctx, p)
    ensures !StandingFinding(action, ctx, p).Reschedule?
  {
  }

  lemma LadderExactly(action: ProposedAction, ctx: GateContext, p: PolicyBundle)
    ensures LadderFinding(action, ctx, p) == Pass <==> RungPermits(action, ctx, p)
    ensures !LadderFinding(action, ctx, p).Reschedule?
  {
    var rung := RungAt(p.ladder, RequestedRung(action, ctx));
    if rung.Some? {
      PreconditionsExactly(rung.value.preconditions, ctx, action.args.channel);
    }
  }

  lemma FrequencyExactly(channel: Channel, ctx: GateContext, caps: FrequencyCaps)
    ensures FrequencyFinding(channel, ctx, caps) == Pass <==>
            RoomFor(caps, ctx.contactsUsed, ctx.history, channel.Voice?, ctx.now)
    ensures !FrequencyFinding(channel, ctx, caps).Reschedule?
  {
  }

  lemma ContactExactly(action: ProposedAction, ctx: GateContext, p: PolicyBundle)
    ensures !ContactFinding(action, ctx, p).Refuse? <==> ContactPermits(action, ctx, p)
    ensures ContactPermits(action, ctx, p) ==> ContactFinding(action, ctx, p) == QuietFinding(action, ctx, p)
  {
    StandingExactly(action, ctx, p);
    LadderExactly(action, ctx, p);
    FrequencyExactly(action.args.channel, ctx, p.contact.caps);
    assert !QuietFinding(action, ctx, p).Refuse?;
  }

  /** An action is approved exactly when it is an exit, or the kill switch is off, the
      budgets have room, and the money and contact policies permit it. */
  lemma ApprovedExactly(action: ProposedAction, ctx: GateContext, p: PolicyBundle)
    ensures Approved(action, ctx, p) <==>
            || action.tool in ALWAYS_ALLOWED
            || (&& !ctx.killSwitchEngaged
                && WithinBudgets(ctx, p)
                && MoneyPermits(action, ctx, p)
                && (action.tool in CONTACT_ACTIONS ==> ContactPermits(action, ctx, p)))
  {
    if action.tool !in ALWAYS_ALLOWED && !ctx.killSwitchEngaged {
      RulingStages(action, ctx, p);
      BudgetsExactly(ctx, p);
      MoneyExactly(action, ctx, p);
      ContactExactly(action, ctx, p);
      if action.tool in CONTACT_ACTIONS && MoneyFinding(action, ctx, p) != Pass {
        assert MoneyFinding(action, ctx, p).Refuse?;
      }
    }
  }

  /** When an approved action is to happen: a retry that comes too soon at the end of its
      gap, a contact in quiet hours at their end, anything else as proposed. */
  function ApprovedSchedule(action: ProposedAction, ctx: GateContext, p: PolicyBundle): Option<Instant> {
    var t, window := Target(action, ctx), if action.args.channel == Voice then p.contact.voice else p.contact.messaging;
    if action.tool == RetryPayment && ctx.lastRetryAt.Some?
       && t < ctx.lastRetryAt.value + p.money.minGapBetweenRetriesHours * HOUR
    then Some(ctx.lastRetryAt.value + p.money.minGapBetweenRetriesHours * HOUR)
    else if action.tool in CONTACT_ACTIONS && window.Quiet(t) then Some(NextAllowedTime(t, window))
    else action.scheduledFor
  }

  /** The decision is the proposal on its approved schedule, called a rewrite if that moved. */
  ghost predicate OnSchedule(action: ProposedAction, ctx: GateContext, p: PolicyBundle) {
    && Ruling(action, ctx, p).action == Some(action.(scheduledFor := ApprovedSchedule(action, ctx, p)))
    && (Ruling(action, ctx, p).verdict == Modify <==> ApprovedSchedule(action, ctx, p) != action.scheduledFor)
  }

  lemma ContactSchedule(action: ProposedAction, ctx: GateContext, p: PolicyBundle)
    requires p.Valid() && Approved(action, ctx, p) && action.tool in CONTACT_ACTIONS
    ensures OnSchedule(action, ctx, p)
  {
    RulingStages(action, ctx, p);
    BudgetsExactly(ctx, p);
    MoneyExactly(action, ctx, p);
    ContactExactly(action, ctx, p);
    QuietSchedule(action, ctx, p);
  }

  /** Money moves only a retry, and only to the end of its gap. */
  lemma MoneySchedule(action: ProposedAction, ctx: GateContext, p: PolicyBundle)
    requires !MoneyFinding(action, ctx, p).Refuse?
    ensures action.tool !in CONTACT_ACTIONS ==>
              if ApprovedSchedule(action, ctx, p) == action.scheduledFor then MoneyFinding(action, ctx, p) == Pass
              else && MoneyFinding(action, ctx, p).Reschedule?
                   && Some(MoneyFinding(action, ctx, p).at) == ApprovedSchedule(action, ctx, p)
  {
  }

  lemma OtherSchedule(action: ProposedAction, ctx: GateContext, p: PolicyBundle)
    requires Approved(action, ctx, p) && action.tool !in CONTACT_ACTIONS
    ensures OnSchedule(action, ctx, p)
  {
    if action.tool !in ALWAYS_ALLOWED {
      RulingStages(action, ctx, p);
      BudgetsExactly(ctx, p);
      MoneySchedule(action, ctx, p);
    }
  }

  /** Approval hands back the proposal on exactly that schedule, and says so: it is a
      rewrite exactly when the schedule differs from the one asked for. */
  lemma ScheduledExactly(action: ProposedAction, ctx: GateContext, p: PolicyBundle)
    requires p.Valid() && Approved(action, ctx, p)
    ensures Ruling(action, ctx, p).action == Some(action.(scheduledFor := ApprovedSchedule(action, ctx, p)))
    ensures Ruling(action, ctx, p).verdict == Modify <==> ApprovedSchedule(action, ctx, p) != action.scheduledFor
  {
    if action.tool in CONTACT_ACTIONS {
      ContactSchedule(action, ctx, p);
    } else {
      OtherSchedule(action, ctx, p);
    }
    assert OnSchedule(action, ctx, p);
  }

  lemma QuietSchedule(action: ProposedAction, ctx: GateContext, p: PolicyBundle)
    requires p.Valid()
    ensures var t, w := Target(action, ctx), p.contact.WindowFor(action.args.channel);
            QuietFinding(action, ctx, p) ==
            if w.Quiet(t) then Reschedule(NextAllowedTime(t, w), QuietHoursReschedule(NextAllowedTime(t, w))) else Pass
    ensures var t, w := Target(action, ctx), p.contact.WindowFor(action.args.channel);
            w.Quiet(t) ==> NextAllowedTime(t, w) > t
  {
    var t, w := Target(action, ctx), p.contact.WindowFor(action.args.channel);
    if w.Quiet(t) {
      TargetShape(t, w);
    }
  }
}
