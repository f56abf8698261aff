/** The shipped playbooks: which action each cause gets at which step, and when. */
module Playbooks {
  import opened Domain
  import opened Policy
  import opened Gate
  import opened GateProperties
  import opened Runner
  import opened RunnerSafety
  import opened RunExactness

  datatype PlaybookStep = PlaybookStep(tool: Tool, offset: int, channel: Channel, rung: Option<int>, concessionPct: nat) {
    predicate Contacts() {
      tool in CONTACT_ACTIONS
    }
  }

  function Act(tool: Tool, offset: int): PlaybookStep {
    PlaybookStep(tool, offset, NoChannel, None, 0)
  }

  function Message(offset: int, channel: Channel, rung: int): PlaybookStep {
    PlaybookStep(SendMessage, offset, channel, Some(rung), 0)
  }

  function PlaybookFor(cause: RootCause): seq<PlaybookStep> {
    match cause
    case InsufficientFunds =>
      [Message(2 * HOUR, Whatsapp, 1), Act(RetryPayment, 3 * DAY), Act(RetryPayment, 5 * DAY), Act(CreatePaymentLink, 6 * DAY)]
    case AuthenticationFailed => [Act(CreatePaymentLink, HOUR), Message(6 * HOUR, Whatsapp, 1)]
    case IssuerDown => [Act(RetryPayment, 2 * HOUR), Act(RetryPayment, 8 * HOUR), Act(RetryPayment, DAY)]
    case GatewayError => [Act(RetryPayment, HOUR)]
    case TechnicalTimeout => [Act(VerifyPaymentClaim, 15 * MINUTE), Act(RetryPayment, 2 * HOUR), Act(RetryPayment, DAY)]
    case CardExpiredOrInvalid => [Message(HOUR, Whatsapp, 1), Act(CreatePaymentLink, 2 * HOUR)]
    case LimitExceeded => [Act(CreatePaymentLink, HOUR), Message(DAY, Whatsapp, 1)]
    case RiskDeclined => [Act(CloseEpisode, 0)]
    case CustomerCancelled => [Message(4 * HOUR, Whatsapp, 1)]
    case MandateRevoked =>
      [PlaybookStep(RequestMandateReauth, 2 * HOUR, Whatsapp, None, 0), Act(CreatePaymentLink, 2 * DAY)]
    case MandateInsufficient => [Message(2 * HOUR, Whatsapp, 1), Act(RetryPayment, 4 * DAY), Act(RetryPayment, 6 * DAY)]
    case InvoiceForgotten =>
      [Message(HOUR, Email, 1), Message(4 * DAY, Whatsapp, 2), Message(10 * DAY, Email, 3), Act(EscalateToHuman, 20 * DAY)]
    case InvoiceCashCrunch =>
      [Message(HOUR, Email, 1), PlaybookStep(OfferConcession, 5 * DAY, NoChannel, None, 8), Message(12 * DAY, Whatsapp, 2),
       Act(EscalateToHuman, 25 * DAY)]
    case InvoiceDisputed => [Act(EscalateToHuman, 0)]
    case UnknownCause =>
      [Message(4 * HOUR, Email, 1), Act(RetryPayment, DAY), Act(RetryPayment, 3 * DAY), Act(CloseEpisode, 5 * DAY)]
  }

  function ToAction(step: PlaybookStep, openedAt: Instant, amount: Paise): ProposedAction {
    ProposedAction(step.tool, Args(step.channel, step.rung, amount * step.concessionPct / 100, false, false),
                   Some(openedAt + step.offset))
  }

  /** The rules' strategy: the playbook's step for each turn, then nothing. */
  function Follow(steps: seq<PlaybookStep>, openedAt: Instant, amount: Paise): StrategyContext -> Option<ProposedAction> {
    (ctx: StrategyContext) =>
      if ctx.stepNo >= |steps| then None else Some(ToAction(steps[ctx.stepNo], openedAt, amount))
  }

  /** How far past its offset a step can be carried out: a contact waits out a quiet window. */
  function Push(step: PlaybookStep): int {
    if step.Contacts() then DAY else 0
  }

  /** No retry comes before a contact, and every contact comes after all that earlier steps
      can be pushed to. */
  predicate WellTimed(steps: seq<PlaybookStep>) {
    && (forall k | 0 <= k < |steps| :: steps[k].offset >= 0)
    && forall i, k | 0 <= i < k < |steps| && steps[k].Contacts() ::
         steps[i].tool != RetryPayment && steps[i].offset + Push(steps[i]) <= steps[k].offset
  }

  /** Every shipped playbook is well timed. */
  lemma ShippedPlaybooksAreWellTimed(cause: RootCause)
    ensures WellTimed(PlaybookFor(cause))
  {
    var steps := PlaybookFor(cause);
    assert |steps| <= 4;
    assert forall k | 0 <= k < |steps| :: steps[k].offset >= 0;
    assert |steps| > 1 && steps[1].Contacts() ==>
        steps[0].tool != RetryPayment && steps[0].offset + Push(steps[0]) <= steps[1].offset;
    assert |steps| > 2 && steps[2].Contacts() ==>
        && steps[0].tool != RetryPayment && steps[0].offset + Push(steps[0]) <= steps[2].offset
        && steps[1].tool != RetryPayment && steps[1].offset + Push(steps[1]) <= steps[2].offset;
    assert |steps| > 3 ==> !steps[3].Contacts();
  }

  /** The clock has not passed any contact still to come. */
  ghost predicate OnSchedule(ep: Episode, steps: seq<PlaybookStep>, s: RunState) {
    forall k | s.step <= k < |steps| && steps[k].Contacts() :: s.now <= ep.occurredAt + steps[k].offset
  }

  /** An iteration that goes on left the clock alone, or moved it to the moment of acting. */
  lemma ClockMoves(ep: Episode, s: RunState)
    requires s.result.state == Ingested && !Iterate(ep, s).1
    ensures Iterate(ep, s).0.now == s.now ||
            (Approval(ep, s).Some? && Iterate(ep, s).0.now == ActionMoment(ep, s))
  {
    IterateEffect(ep, s);
  }

  /** Acting on a step takes the clock no further than its offset and push. */
  lemma StepReach(ep: Episode, s: RunState, step: PlaybookStep)
    requires ep.policy.Valid() && Approval(ep, s).Some? && step.tool != RetryPayment
    requires Proposal(ep, s) == Some(ToAction(step, ep.occurredAt, ep.amount))
    ensures ActionMoment(ep, s) <= Max(s.now, ep.occurredAt + step.offset + Push(step))
  {
    var proposal, ctx := Proposal(ep, s).value, Context(ep, s);
    ApprovalKeepsAction(ep, s);
    if step.Contacts() {
      ApprovedContact(proposal, ctx, ep.policy);
      var w := WindowOf(ep, proposal);
      if w.Quiet(Target(proposal, ctx)) {
        TargetShape(Target(proposal, ctx), w);
      }
    } else if Decision(ep, s).verdict == Modify {
      RewriteOnlyDelays(proposal, ctx, ep.policy);
    }
  }

  lemma ScheduleIsKept(ep: Episode, steps: seq<PlaybookStep>, s: RunState)
    requires ep.policy.Valid() && WellTimed(steps) && ep.strategy == Follow(steps, ep.occurredAt, ep.amount)
    requires s.result.state == Ingested && OnSchedule(ep, steps, s) && !Iterate(ep, s).1
    ensures OnSchedule(ep, steps, Iterate(ep, s).0)
  {
    var t := Iterate(ep, s).0;
    ClockMoves(ep, s);
    if t.now != s.now {
      var step := steps[s.step];
      forall k | t.step <= k < |steps| && steps[k].Contacts() ensures t.now <= ep.occurredAt + steps[k].offset {
        StepReach(ep, s, step);
      }
    }
  }

  lemma {:induction false} FollowingIsNeverStale(ep: Episode, steps: seq<PlaybookStep>, s: RunState)
    requires ep.policy.Valid() && WellTimed(steps) && ep.strategy == Follow(steps, ep.occurredAt, ep.amount)
    requires s.result.state == Ingested && OnSchedule(ep, steps, s)
    ensures NeverStale(ep, s)
    decreases MAX_STEPS - s.step
  {
    if s.step < MAX_STEPS {
      if Proposal(ep, s).Some? && Proposal(ep, s).value.tool in CONTACT_ACTIONS {
        var proposal := Proposal(ep, s).value;
        var w := WindowOf(ep, proposal);
        if w.Quiet(proposal.scheduledFor.value) {
          TargetShape(proposal.scheduledFor.value, w);
        }
      }
      if !Iterate(ep, s).1 {
        IterateEffect(ep, s);
        ScheduleIsKept(ep, steps, s);
        FollowingIsNeverStale(ep, steps, Iterate(ep, s).0);
      }
    }
  }

  /** So no run that follows a shipped playbook makes contact in quiet hours. */
  lemma PlaybooksKeepQuietHours(ep: Episode, cause: RootCause)
    requires ep.policy.Valid() && WindowsCanBeLeft(ep.policy)
    requires ep.strategy == Follow(PlaybookFor(cause), ep.occurredAt, ep.amount)
    ensures OutsideQuietHours(ep, RunEpisode(ep).executed)
  {
    ShippedPlaybooksAreWellTimed(cause);
    if ep.triage != Some(false) {
      FollowingIsNeverStale(ep, PlaybookFor(cause), Open(ep));
    }
    QuietHoursKept(ep);
  }
}
