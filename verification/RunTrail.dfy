/** Every entry a run writes states what is so: amounts off the rate card, answers the world
    gave, the payment that came of itself at its own instant. */
module RunTrail {
  import opened Domain
  import opened Policy
  import opened Gate
  import opened Runner
  import opened RunnerSafety
  import opened RunExactness
  import opened RunStory
  import Ledger

  function PriceOf(rates: Rates, kind: ExternalityKind): Paise {
    match kind
    case ForbiddenRetryHarm => rates.forbiddenRetry
    case ComplaintHarm => rates.complaint
    case DisputeHarm => rates.dispute
    case OptOutHarm => rates.optOut
  }

  /** The world answered so to this action, done then, on this channel, at this step. */
  ghost predicate Answered(ep: Episode, step: nat, tool: Tool, channel: Channel, at: Instant, paid: bool, amount: Paise) {
    exists concession: Paise, index: nat ::
      var answer := ep.world(Interaction(tool, at, channel, concession, index), step);
      answer.paid == paid && answer.amount == amount
  }

  ghost predicate PaidThen(ep: Episode, at: Instant, amount: Paise) {
    exists step: nat, tool: Tool, channel: Channel :: Answered(ep, step, tool, channel, at, true, amount)
  }

  ghost predicate IsSo(ep: Episode, e: Entry) {
    match e.event
    case EpisodeOpened(amount) => amount == ep.amount && e.at == ep.occurredAt
    case CostIncurred(None, amount) => amount == ep.tokenCost && amount > 0
    case CostIncurred(Some(channel), amount) =>
      channel != NoChannel && amount == if channel in ep.rates.channels then ep.rates.channels[channel] else 0
    case DiagnosisMade(cause) => ep.diagnosis.Some? && cause == ep.diagnosis.value.rootCause
    case TriageDone(work) => ep.triage == Some(work)
    case ActionExecuted(step, tool, channel, paid, amount) => Answered(ep, step, tool, channel, e.at, paid, amount)
    case ExternalityBooked(kind, amount) =>
      amount > 0 && amount == PriceOf(ep.rates, kind) && (kind == ForbiddenRetryHarm ==> ep.trueCause in NEVER_RETRY)
    case OutcomeSeen(amount, attributed) =>
      if attributed then PaidThen(ep, e.at, amount) else amount == ep.amount && ep.selfRecoveryAt == Some(e.at)
    case _ => true
  }

  /** The trail opens with the opening, and every entry is so. */
  ghost predicate AllSo(ep: Episode, s: RunState) {
    && s.audit != [] && s.audit[0] == Entry(ep.occurredAt, EpisodeOpened(ep.amount))
    && forall e <- s.audit :: IsSo(ep, e)
  }

  /** One entry more, and nothing else of the trail. */
  lemma OneMore(ep: Episode, s: RunState, t: RunState, e: Entry)
    requires AllSo(ep, s) && t.audit == s.audit + [e] && IsSo(ep, e)
    ensures AllSo(ep, t)
  {
  }

  lemma BookIsSo(ep: Episode, s: RunState, kind: ExternalityKind, amount: Paise)
    requires AllSo(ep, s) && amount == PriceOf(ep.rates, kind)
    requires kind == ForbiddenRetryHarm ==> ep.trueCause in NEVER_RETRY
    ensures AllSo(ep, Book(s, kind, amount)) && Book(s, kind, amount).now == s.now
  {
    if amount > 0 {
      OneMore(ep, s, Book(s, kind, amount), Entry(s.now, ExternalityBooked(kind, amount)));
    }
  }

  lemma ContactIsSo(ep: Episode, s: RunState, channel: Channel)
    requires AllSo(ep, s) && channel != NoChannel
    ensures AllSo(ep, CountContact(ep, s, channel))
  {
    OneMore(ep, s, CountContact(ep, s, channel), Entry(s.now, CostIncurred(Some(channel), UnitCost(ep, channel))));
  }

  lemma RetryIsSo(ep: Episode, s: RunState)
    requires AllSo(ep, s)
    ensures AllSo(ep, CountRetry(ep, s))
  {
    RetryIsCounted(ep, s);
    var counted := Ledger.RetryCounted(s, ep.trueCause in NEVER_RETRY);
    assert counted.audit == s.audit;
    if ep.trueCause in NEVER_RETRY {
      BookIsSo(ep, counted, ForbiddenRetryHarm, ep.rates.forbiddenRetry);
    }
  }

  lemma SpendIsSo(ep: Episode, s: RunState, action: ProposedAction)
    requires AllSo(ep, s)
    ensures AllSo(ep, Spend(ep, s, action))
  {
    var s1 := CountAction(s);
    assert s1.audit == s.audit;
    RetryIsSo(ep, s1);
    var s2 := if action.tool == RetryPayment then CountRetry(ep, s1) else s1;
    if IsContact(action) {
      ContactIsSo(ep, s2, action.args.channel);
    }
  }

  lemma RecordIsSo(ep: Episode, s: RunState, action: ProposedAction, answer: Reaction)
    requires AllSo(ep, s) && Answered(ep, s.step, action.tool, action.args.channel, s.now, answer.paid, answer.amount)
    ensures AllSo(ep, Record(s, action, answer))
  {
    OneMore(ep, s, Record(s, action, answer),
            Entry(s.now, ActionExecuted(s.step, action.tool, action.args.channel, answer.paid, answer.amount)));
  }

  lemma ComplaintIsSo(ep: Episode, s: RunState)
    requires AllSo(ep, s)
    ensures AllSo(ep, Complain(ep, s))
  {
    BookIsSo(ep, s.(result := s.result.(complained := true)), ComplaintHarm, ep.rates.complaint);
  }

  lemma DisputeIsSo(ep: Episode, s: RunState)
    requires AllSo(ep, s)
    ensures AllSo(ep, Dispute(ep, s))
  {
    BookIsSo(ep, s.(result := s.result.(disputed := true)), DisputeHarm, ep.rates.dispute);
  }

  lemma OptOutIsSo(ep: Episode, s: RunState)
    requires AllSo(ep, s)
    ensures AllSo(ep, OptedOutNow(ep, s))
  {
    BookIsSo(ep, s.(result := s.result.(optedOut := true)), OptOutHarm, ep.rates.optOut);
  }

  lemma PayIsSo(ep: Episode, s: RunState, amount: Paise)
    requires AllSo(ep, s) && PaidThen(ep, s.now, amount)
    ensures AllSo(ep, Pay(ep, s, amount))
  {
    OneMore(ep, s, Pay(ep, s, amount), Entry(s.now, OutcomeSeen(amount, true)));
  }

  lemma SelfRecoveryIsSo(ep: Episode, s: RunState, now: Instant)
    requires AllSo(ep, s)
    ensures AllSo(ep, SelfRecover(ep, s, now).0)
  {
    if CameBy(ep, now) {
      OneMore(ep, s, SelfRecover(ep, s, now).0, Entry(ep.selfRecoveryAt.value, OutcomeSeen(ep.amount, false)));
    }
  }

  lemma ReactIsSo(ep: Episode, s: RunState, action: ProposedAction, answer: Reaction)
    requires AllSo(ep, s) && Answered(ep, s.step, action.tool, action.args.channel, s.now, answer.paid, answer.amount)
    ensures AllSo(ep, React(ep, s, action, answer).0)
  {
    var s1 := Record(s, action, answer);
    RecordIsSo(ep, s, action, answer);
    ComplaintIsSo(ep, s1);
    var s2 := if answer.complained then Complain(ep, s1) else s1;
    DisputeIsSo(ep, s2);
    OptOutIsSo(ep, s2);
    if answer.paid {
      assert PaidThen(ep, s.now, answer.amount);
      PayIsSo(ep, s2, answer.amount);
    }
  }

  lemma TheWorldAnswered(ep: Episode, s: RunState, action: ProposedAction, at: Instant)
    ensures var answer := AnswerTo(ep, s, action, at);
            Answered(ep, s.step, action.tool, action.args.channel, at, answer.paid, answer.amount)
  {
    var earlier := s.result.contactsMade;
    var index: nat := if IsContact(action) || earlier == 0 then earlier else earlier - 1;
    assert AnswerTo(ep, s, action, at) ==
           ep.world(Interaction(action.tool, at, action.args.channel, action.args.valuePaise, index), s.step);
  }

  lemma ExecuteIsSo(ep: Episode, s: RunState, action: ProposedAction)
    requires AllSo(ep, s)
    ensures AllSo(ep, Execute(ep, s, action).0)
  {
    if IsAnswered(action) {
      var s1 := s.(executed := s.executed + [Execution(action, s.now)]);
      var spent := Spend(ep, s1, action);
      SpendIsSo(ep, s1, action);
      SpendEffect(ep, s1, action);
      TheWorldAnswered(ep, s, action, s.now);
      assert Answer(ep, spent, action) == AnswerTo(ep, s, action, s.now);
      ReactIsSo(ep, spent, action, Answer(ep, spent, action));
    } else {
      UnansweredIsSo(ep, s, action);
    }
  }

  lemma UnansweredIsSo(ep: Episode, s: RunState, action: ProposedAction)
    requires AllSo(ep, s) && !IsAnswered(action)
    ensures AllSo(ep, Execute(ep, s, action).0)
  {
  }

  lemma PerformIsSo(ep: Episode, s: RunState, action: ProposedAction)
    requires AllSo(ep, s)
    ensures AllSo(ep, Perform(ep, s, action).0)
  {
    var ready := if action.tool == RetryPayment then s.(lastRetryAt := Some(s.now)) else s;
    ExecuteIsSo(ep, ready, action);
    assert Perform(ep, s, action).0.audit == Execute(ep, ready, action).0.audit;
  }

  lemma ApprovalIsSo(ep: Episode, s: RunState, action: ProposedAction, when: Instant)
    requires AllSo(ep, s)
    ensures AllSo(ep, AfterApproval(ep, s, action, when).0)
  {
    var at := Max(s.now, if action.scheduledFor.Some? then action.scheduledFor.value else when);
    SelfRecoveryIsSo(ep, s.(now := at), at);
    PerformIsSo(ep, s.(now := at), action);
  }

  lemma NotedIsSo(ep: Episode, s: RunState, proposal: ProposedAction, decision: GateDecision, when: Instant)
    requires AllSo(ep, s)
    ensures AllSo(ep, Noted(s, proposal, decision, when))
  {
    OneMore(ep, s, Noted(s, proposal, decision, when),
            Entry(when, GateRuled(s.step, proposal.tool, decision.verdict, decision.reasons)));
  }

  lemma TurnIsSo(ep: Episode, s: RunState)
    requires AllSo(ep, s)
    ensures AllSo(ep, Iterate(ep, s).0)
  {
    if CameBy(ep, s.now) {
      SelfRecoveryIsSo(ep, s, s.now);
      assert Iterate(ep, s) == SelfRecover(ep, s, s.now);
    } else if Proposal(ep, s).Some? && Timely(ep, s) {
      var proposal, decision, when := Proposal(ep, s).value, Decision(ep, s), ApprovalMoment(ep, s);
      IterateSettles(ep, s);
      NotedIsSo(ep, s, proposal, decision, when);
      if decision.verdict == Deny {
        assert Settle(ep, s, proposal, decision, when).0.audit == Noted(s, proposal, decision, when).audit;
      } else {
        ApprovalIsSo(ep, Noted(s, proposal, decision, when), decision.action.value, when);
      }
    } else {
      IdleTurnWritesNothing(ep, s);
    }
  }

  lemma IdleTurnWritesNothing(ep: Episode, s: RunState)
    requires !CameBy(ep, s.now) && (Proposal(ep, s).None? || !Timely(ep, s))
    ensures Iterate(ep, s).0.audit == s.audit
  {
  }

  lemma {:induction false} LoopIsSo(ep: Episode, s: RunState)
    requires AllSo(ep, s)
    ensures AllSo(ep, Loop(ep, s))
    decreases MAX_STEPS - s.step
  {
    if s.step < MAX_STEPS {
      TurnIsSo(ep, s);
      if !Iterate(ep, s).1 {
        LoopIsSo(ep, Iterate(ep, s).0);
      }
    }
  }

  lemma TokensAreSo(ep: Episode, s: RunState)
    requires AllSo(ep, s)
    ensures AllSo(ep, ChargeTokens(ep, s))
  {
    if ep.tokenCost > 0 {
      OneMore(ep, s, ChargeTokens(ep, s), Entry(s.now, CostIncurred(None, ep.tokenCost)));
    }
  }

  lemma NotesAreSo(ep: Episode, s: RunState)
    requires AllSo(ep, s)
    ensures AllSo(ep, NoteDiagnosis(ep, s)) && AllSo(ep, NoteTriage(ep, s))
  {
    if ep.diagnosis.Some? {
      OneMore(ep, s, NoteDiagnosis(ep, s), Entry(s.now, DiagnosisMade(ep.diagnosis.value.rootCause)));
    }
    if ep.triage.Some? {
      OneMore(ep, s, NoteTriage(ep, s), Entry(s.now, TriageDone(ep.triage.value)));
    }
  }

  lemma OpenIsSo(ep: Episode)
    ensures AllSo(ep, Open(ep))
  {
    assert Begin(ep).audit == [Entry(ep.occurredAt, EpisodeOpened(ep.amount))];
    TokensAreSo(ep, Begin(ep));
    NotesAreSo(ep, ChargeTokens(ep, Begin(ep)));
    NotesAreSo(ep, NoteDiagnosis(ep, ChargeTokens(ep, Begin(ep))));
  }

  lemma ConcludedIsSo(ep: Episode)
    ensures AllSo(ep, Concluded(ep))
  {
    OpenIsSo(ep);
    if ep.triage == Some(false) {
      assert Concluded(ep).audit == Open(ep).audit;
    } else {
      LoopIsSo(ep, Open(ep));
    }
  }

  lemma WatchIsSo(ep: Episode, s: RunState)
    requires AllSo(ep, s)
    ensures AllSo(ep, Watch(ep, s))
  {
    SelfRecoveryIsSo(ep, s, ep.watchUntil);
    assert Watch(ep, s).audit == (if HasRecovered(s.result) then s else SelfRecover(ep, s, ep.watchUntil).0).audit;
  }

  lemma CloseIsSo(ep: Episode, s: RunState)
    requires AllSo(ep, s)
    ensures AllSo(ep, Close(s))
    ensures Close(s).audit == s.audit + [Entry(s.now, EpisodeClosed(s.result.state, s.result.recovered, s.result.cost))]
    ensures Close(s).result == s.result && Close(s).now == s.now
  {
    OneMore(ep, s, Close(s), Entry(s.now, EpisodeClosed(s.result.state, s.result.recovered, s.result.cost)));
  }

  /** Every run's trail opens with the opening, every entry states what is so, and the last
      one states how it ended. */
  lemma TrailIsSo(ep: Episode)
    requires ep.policy.Valid()
    ensures var s := RunEpisode(ep);
            && AllSo(ep, s)
            && s.audit[|s.audit| - 1] == Entry(s.now, EpisodeClosed(s.result.state, s.result.recovered, s.result.cost))
  {
    ConcludedIsSo(ep);
    WatchIsSo(ep, Concluded(ep));
    CloseIsSo(ep, Watch(ep, Concluded(ep)));
    ConcludedIsTerminal(ep);
  }
}
